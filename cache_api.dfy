/**
 * The part of the browser's Cache API that the service worker uses: a
 * CacheStorage holding named buckets (caches), each a map from request URL
 * to stored response, with `open`, `put`, `addAll`, `match`, `keys` and
 * `delete`. The rules that the platform, not the worker, enforces are
 * written out: `put` refuses a request whose method (`verb`) is not GET and a
 * partial (206) response, `addAll` refuses the whole batch unless every
 * response is ok and not partial, `match` finds nothing for a request whose
 * method is not GET, and CacheStorage's `match` searches the buckets in the
 * order they were created.
 */
module CacheApi {
  import opened Wrappers

  datatype Request = Request(verb: string, url: string)
  datatype Response = Response(status: int, body: string)

  /** What one network fetch yields: a rejection, or a response with any status. */
  datatype NetResult = NetErr | Resp(response: Response)

  type Bucket = map<string, Response>

  /** A fetch Response's `ok` flag: the status lies in 200–299. */
  predicate IsOkStatus(status: int) {
    200 <= status <= 299
  }

  /** `Cache.put` stores only GET requests and refuses partial responses. */
  predicate Storable(req: Request, resp: Response) {
    req.verb == "GET" && resp.status != 206
  }

  /** `Cache.addAll` accepts one fetched response only when it is ok and not partial. */
  predicate AddAllAccepts(net: NetResult) {
    net.Resp? && IsOkStatus(net.response.status) && net.response.status != 206
  }

  predicate HasEntry(buckets: map<string, Bucket>, name: string, url: string) {
    name in buckets && url in buckets[name]
  }

  /** The bucket at position `i` is the first, in creation order, holding `url`. */
  predicate FirstHolder(names: seq<string>, buckets: map<string, Bucket>, url: string, i: int) {
    && 0 <= i < |names|
    && HasEntry(buckets, names[i], url)
    && forall j :: 0 <= j < i ==> !HasEntry(buckets, names[j], url)
  }

  /** Searches the buckets in creation order for an entry stored under exactly `url`. */
  function Lookup(names: seq<string>, buckets: map<string, Bucket>, url: string): (r: Option<Response>)
    ensures r.None? <==> forall i :: 0 <= i < |names| ==> !HasEntry(buckets, names[i], url)
    ensures r.Some? ==> exists i :: FirstHolder(names, buckets, url, i) && r.value == buckets[names[i]][url]
  {
    if names == [] then None
    else if HasEntry(buckets, names[0], url) then
      assert FirstHolder(names, buckets, url, 0);
      Some(buckets[names[0]][url])
    else
      var r := Lookup(names[1..], buckets, url);
      if r.Some? then
        var i :| FirstHolder(names[1..], buckets, url, i) && r.value == buckets[names[1..][i]][url];
        assert FirstHolder(names, buckets, url, i + 1);
        r
      else
        r
  }

  /** CacheStorage's `match`: a request whose method (`verb`) is not GET never matches. */
  function FirstMatch(names: seq<string>, buckets: map<string, Bucket>, req: Request): (r: Option<Response>)
    ensures req.verb != "GET" ==> r.None?
    ensures req.verb == "GET" ==> r == Lookup(names, buckets, req.url)
  {
    if req.verb == "GET" then Lookup(names, buckets, req.url) else None
  }

  /** A lookup sees only the entries stored under its own URL: changing any other entry leaves it alike. */
  lemma {:induction false} LookupSeesOnlyItsUrl(names: seq<string>, b1: map<string, Bucket>, b2: map<string, Bucket>, url: string)
    requires forall n :: HasEntry(b1, n, url) <==> HasEntry(b2, n, url)
    requires forall n :: HasEntry(b1, n, url) && HasEntry(b2, n, url) ==> b1[n][url] == b2[n][url]
    ensures Lookup(names, b1, url) == Lookup(names, b2, url)
  {
    if names != [] {
      LookupSeesOnlyItsUrl(names[1..], b1, b2, url);
    }
  }

  /** Storing a response under one URL never changes what a different URL finds. */
  lemma LookupAfterPutElsewhere(names: seq<string>, buckets: map<string, Bucket>, name: string,
                                stored: string, resp: Response, url: string)
    requires stored != url
    ensures var b := if name in buckets then buckets[name] else map[];
            Lookup(names, buckets[name := b[stored := resp]], url) == Lookup(names, buckets, url)
  {
    var b := if name in buckets then buckets[name] else map[];
    var after := buckets[name := b[stored := resp]];
    forall n | HasEntry(after, n, url)
      ensures HasEntry(buckets, n, url) && after[n][url] == buckets[n][url]
    {
    }
    LookupSeesOnlyItsUrl(names, after, buckets, url);
  }

  /**
   * The bucket `addAll` leaves behind: every requested URL holds its fetched
   * response, only those URLs were added, and every other entry is kept.
   */
  function Stored(b: Bucket, urls: seq<string>, net: string -> NetResult): (r: Bucket)
    requires forall i :: 0 <= i < |urls| ==> net(urls[i]).Resp?
    ensures forall u :: u in r <==> u in b || u in urls
    ensures forall i :: 0 <= i < |urls| ==> r[urls[i]] == net(urls[i]).response
    ensures forall u :: u in b && u !in urls ==> r[u] == b[u]
  {
    if urls == [] then b
    else
      var init := urls[..|urls| - 1];
      var last := urls[|urls| - 1];
      assert forall u :: u in urls <==> u in init || u == last;
      Stored(b, init, net)[last := net(last).response]
  }

  /** Storing one more URL of the list extends the bucket by that one entry. */
  lemma StoredStep(b: Bucket, urls: seq<string>, net: string -> NetResult, k: nat)
    requires k < |urls|
    requires forall i :: 0 <= i < |urls| ==> net(urls[i]).Resp?
    ensures Stored(b, urls[..k + 1], net) == Stored(b, urls[..k], net)[urls[k] := net(urls[k]).response]
  {
    assert urls[..k + 1][..k] == urls[..k];
  }

  /** The names `s` holds, each at one position only. */
  predicate NoDuplicates(s: seq<string>) {
    forall i, j :: 0 <= i < j < |s| ==> s[i] != s[j]
  }

  /** `s` with every occurrence of `x` removed, order kept. */
  function Without(s: seq<string>, x: string): (r: seq<string>)
    ensures forall y :: y in r <==> y in s && y != x
  {
    if s == [] then []
    else Without(s[..|s| - 1], x) + (if s[|s| - 1] == x then [] else [s[|s| - 1]])
  }

  lemma {:induction false} WithoutAbsent(s: seq<string>, x: string)
    requires x !in s
    ensures Without(s, x) == s
  {
    if s != [] {
      WithoutAbsent(s[..|s| - 1], x);
    }
  }

  lemma {:induction false} WithoutConcat(a: seq<string>, b: seq<string>, x: string)
    ensures Without(a + b, x) == Without(a, x) + Without(b, x)
  {
    if b != [] {
      assert (a + b)[..|a + b| - 1] == a + b[..|b| - 1];
      WithoutConcat(a, b[..|b| - 1], x);
    } else {
      assert a + b == a;
    }
  }

  lemma {:induction false} WithoutKeepsDistinct(s: seq<string>, x: string)
    requires NoDuplicates(s)
    ensures NoDuplicates(Without(s, x))
  {
    if s != [] {
      var init := s[..|s| - 1];
      assert NoDuplicates(init);
      WithoutKeepsDistinct(init, x);
      assert s[|s| - 1] !in init;
    }
  }

  /**
   * The CacheStorage of one origin. `names` lists the buckets in creation
   * order, as `caches.keys()` reports them; `buckets` maps each name to its
   * contents.
   */
  class CacheStorage {
    var names: seq<string>
    var buckets: map<string, Bucket>

    ghost predicate Valid()
      reads this
    {
      && NoDuplicates(names)
      && (forall n :: n in names ==> n in buckets)
      && (forall n :: n in buckets ==> n in names)
    }

    /** An origin with no caches yet. */
    constructor ()
      ensures Valid() && names == [] && buckets == map[]
    {
      names := [];
      buckets := map[];
    }

    /**
     * CacheStorage's `match` on the current state: nothing for a request
     * whose method is not GET, else the entry the earliest-created bucket
     * holds under the request's URL.
     */
    function Match(req: Request): (r: Option<Response>)
      reads this
      ensures req.verb != "GET" ==> r.None?
      ensures req.verb == "GET" ==> (r.None? <==> forall i :: 0 <= i < |names| ==> !HasEntry(buckets, names[i], req.url))
      ensures r.Some? ==> exists i :: FirstHolder(names, buckets, req.url, i) && r.value == buckets[names[i]][req.url]
    {
      FirstMatch(names, buckets, req)
    }

    /** `caches.open(name)`: creates an empty bucket when none of that name exists. */
    method Open(name: string)
      requires Valid()
      modifies this
      ensures Valid() && name in buckets
      ensures name in old(buckets) ==> names == old(names) && buckets == old(buckets)
      ensures name !in old(buckets) ==> names == old(names) + [name] && buckets == old(buckets)[name := map[]]
    {
      if name !in buckets {
        names := names + [name];
        buckets := buckets[name := map[]];
      }
    }

    /** `cache.put(request, response)` on the bucket `name`; `stored` is false when the Cache API rejects it. */
    method Put(name: string, req: Request, resp: Response) returns (stored: bool)
      requires Valid() && name in buckets
      modifies this
      ensures Valid() && names == old(names)
      ensures stored == Storable(req, resp)
      ensures buckets == if stored then old(buckets)[name := old(buckets)[name][req.url := resp]] else old(buckets)
    {
      stored := Storable(req, resp);
      if stored {
        buckets := buckets[name := buckets[name][req.url := resp]];
      }
    }

    /** `caches.delete(name)`; `existed` is what the returned promise resolves to. */
    method Delete(name: string) returns (existed: bool)
      requires Valid()
      modifies this
      ensures Valid()
      ensures existed == (name in old(buckets))
      ensures names == Without(old(names), name)
      ensures buckets == old(buckets) - {name}
    {
      existed := name in buckets;
      WithoutKeepsDistinct(names, name);
      names := Without(names, name);
      buckets := buckets - {name};
    }

    /**
     * `cache.addAll(urls)` on the bucket `name`: every URL is fetched as a
     * GET request; if any fetch fails or yields a response `addAll` refuses,
     * the promise rejects and nothing is stored.
     */
    method AddAll(name: string, urls: seq<string>, net: string -> NetResult) returns (ok: bool)
      requires Valid() && name in buckets
      modifies this
      ensures Valid() && names == old(names)
      ensures ok <==> forall i :: 0 <= i < |urls| ==> AddAllAccepts(net(urls[i]))
      ensures ok ==> buckets == old(buckets)[name := Stored(old(buckets)[name], urls, net)]
      ensures !ok ==> buckets == old(buckets)
    {
      ok := true;
      var i := 0;
      while i < |urls|
        invariant 0 <= i <= |urls|
        invariant ok <==> forall j :: 0 <= j < i ==> AddAllAccepts(net(urls[j]))
        invariant names == old(names) && buckets == old(buckets)
      {
        if !AddAllAccepts(net(urls[i])) {
          ok := false;
        }
        i := i + 1;
      }
      if ok {
        var b := buckets[name];
        var k := 0;
        while k < |urls|
          invariant 0 <= k <= |urls|
          invariant names == old(names) && buckets == old(buckets)
          invariant b == Stored(buckets[name], urls[..k], net)
        {
          StoredStep(buckets[name], urls, net, k);
          b := b[urls[k] := net(urls[k]).response];
          k := k + 1;
        }
        assert urls[..|urls|] == urls;
        buckets := buckets[name := b];
      }
    }
  }
}
