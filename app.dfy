/**
 * The page script: `loadData` fetches the trending JSON with a cache-busting
 * query, and `render` turns the parsed document into the list of cards.
 * The DOM is reduced to two pieces of state, the `#updatedAt` label and the
 * children of `#list`; what each card shows is kept as values, not HTML.
 */
module App {
  import opened Wrappers
  import opened Strings
  import opened CacheApi
  import opened ServiceWorker

  /** The data file's path on the site. */
  const JSON_PATH: string := "/momentum-pwa/data/trending.json"

  /** At most this many records become cards. */
  const MAX_CARDS: nat := 50

  // ----- the request -----

  /**
   * The absolute URL of `fetch(`${JSON_PATH}?v=${Date.now()}`)`, for a page
   * on `origin`: the data path, then a `v` query whose digits read back as
   * the time stamp.
   */
  function RequestUrl(origin: string, now: nat): (u: string)
    ensures var prefix := origin + JSON_PATH + "?v=";
            && |prefix| < |u| && u[..|prefix|] == prefix
            && (forall i :: |prefix| <= i < |u| ==> '0' <= u[i] <= '9')
            && ParseDecimal(u[|prefix|..]) == now
  {
    var prefix := origin + JSON_PATH + "?v=";
    var u := prefix + Decimal(now);
    assert u[|prefix|..] == Decimal(now);
    DecimalRoundTrip(now);
    u
  }

  /** No data request is one of the shell URLs: install never pre-caches the trending data. */
  lemma DataUrlNotInShell(origin: string, now: nat)
    ensures RequestUrl(origin, now) !in ShellUrls(origin)
  {
    var urls := ShellUrls(origin);
    forall i | 0 <= i < |urls|
      ensures urls[i] != RequestUrl(origin, now)
    {
      assert |urls[i]| < |origin| + |JSON_PATH|;
    }
  }

  /** Every data request goes network-first in the worker, whatever the time stamp. */
  lemma RequestIsNetworkFirst(origin: string, now: nat)
    ensures IsNetworkFirst(RequestUrl(origin, now))
  {
    assert JSON_PATH == "/momentum-pwa" + DATA_PATH;
    assert RequestUrl(origin, now) == (origin + "/momentum-pwa") + DATA_PATH + ("?v=" + Decimal(now));
    NetworkFirstAnywhere(origin + "/momentum-pwa", "?v=" + Decimal(now));
  }

  /** Two loads at different milliseconds use different URLs, hence different cache keys. */
  lemma RequestUrlsDistinct(origin: string, t1: nat, t2: nat)
    requires t1 != t2
    ensures RequestUrl(origin, t1) != RequestUrl(origin, t2)
  {
  }

  // ----- JSON values as the script sees them -----

  /** A property value: Composite is any object or array, which is truthy. Numbers are whole. */
  datatype Field = Undefined | Null | Bool(b: bool) | Num(n: int) | Str(s: string) | Composite

  /** JavaScript truthiness. */
  predicate Truthy(f: Field) {
    match f
    case Undefined => false
    case Null => false
    case Bool(b) => b
    case Num(n) => n != 0
    case Str(s) => s != ""
    case Composite => true
  }

  /** `a || b`: the first operand when truthy, else the second. */
  function Or(a: Field, b: Field): Field {
    if Truthy(a) then a else b
  }

  /** One element of `results`. */
  datatype Record = Record(
    symbol: Field, matched: Field, changePreOpen: Field, openPrice: Field,
    prevClose: Field, ltp: Field, volume: Field, fromOpen: Field)

  /** The `results` property: an array of records, or any other value (a missing one is Scalar(Undefined)). */
  datatype Results = Scalar(value: Field) | Items(records: seq<Record>)

  /** The parsed document; a missing property is Undefined. */
  datatype Data = Data(generatedAtIst: Field, generatedAtUtc: Field, generatedAt: Field, results: Results)

  // ----- what render shows -----

  /** The `#updatedAt` label: the time stamp it formats, "(no timestamp)", or the page's initial text. */
  datatype Stamp = Initial | Updated(ts: Field) | NoTimestamp

  /** A placeholder-aware field: `x ?? '-'`. */
  datatype Shown = Dash | Value(v: Field)

  datatype Card = Card(
    symbol: Field, googleTag: bool, changePreOpen: Shown, openPrice: Shown,
    prevClose: Shown, ltp: Shown, volume: Shown, fromOpen: Shown)

  /** A child of `#list`. */
  datatype Element = LoadingCard | ErrorCard | NoDataCard | ItemCard(card: Card)

  /** The label `render` writes: the first truthy of the three time stamps, through `||`. */
  function StampOf(data: Data): (s: Stamp)
    ensures Truthy(data.generatedAtIst) ==> s == Updated(data.generatedAtIst)
    ensures !Truthy(data.generatedAtIst) && Truthy(data.generatedAtUtc) ==> s == Updated(data.generatedAtUtc)
    ensures !Truthy(data.generatedAtIst) && !Truthy(data.generatedAtUtc) && Truthy(data.generatedAt) ==> s == Updated(data.generatedAt)
    ensures s == NoTimestamp <==> !Truthy(data.generatedAtIst) && !Truthy(data.generatedAtUtc) && !Truthy(data.generatedAt)
    ensures s != Initial
  {
    var ts := Or(Or(data.generatedAtIst, data.generatedAtUtc), data.generatedAt);
    if Truthy(ts) then Updated(ts) else NoTimestamp
  }

  /** `x ?? '-'`: the dash stands only for null and undefined. */
  function OrDash(f: Field): (s: Shown)
    ensures s == Dash <==> f == Null || f == Undefined
    ensures s != Dash ==> s.v == f
  {
    if f == Null || f == Undefined then Dash else Value(f)
  }

  /**
   * The card of one record: its symbol, the Google tag exactly when
   * `Matched` is truthy, and each of the six numeric fields through `?? '-'`.
   */
  function CardOf(r: Record): (c: Card)
    ensures c.symbol == r.symbol
    ensures c.googleTag <==> Truthy(r.matched)
    ensures c.changePreOpen == OrDash(r.changePreOpen) && c.openPrice == OrDash(r.openPrice)
    ensures c.prevClose == OrDash(r.prevClose) && c.fromOpen == OrDash(r.fromOpen)
    ensures c.ltp == OrDash(r.ltp) && c.volume == OrDash(r.volume)
  {
    Card(r.symbol, Truthy(r.matched), OrDash(r.changePreOpen), OrDash(r.openPrice),
         OrDash(r.prevClose), OrDash(r.ltp), OrDash(r.volume), OrDash(r.fromOpen))
  }

  /** `data.results || []`, or None where the value is truthy but not an array and render throws on it. */
  function ResultsArray(data: Data): (arr: Option<seq<Record>>)
    ensures data.results.Items? ==> arr == Some(data.results.records)
    ensures data.results.Scalar? ==> (arr.None? <==> Truthy(data.results.value))
    ensures data.results.Scalar? && arr.Some? ==> arr.value == []
  {
    match data.results
    case Items(rs) => Some(rs)
    case Scalar(f) => if Truthy(f) then None else Some([])
  }

  /** The outcome of `render` on the list: it throws, shows the "no data" card, or shows item cards. */
  datatype Rendered = Threw | NoData | Cards(cards: seq<Card>)

  function ViewOf(data: Data): (v: Rendered)
    ensures v == NoData <==> ResultsArray(data) == Some([])
    ensures v == Threw <==> ResultsArray(data).None?
  {
    match ResultsArray(data)
    case None => Threw
    case Some(rs) =>
      if |rs| == 0 then NoData
      else Cards(seq(Min(|rs|, MAX_CARDS), i requires 0 <= i < Min(|rs|, MAX_CARDS) => CardOf(rs[i])))
  }

  /** A non-empty array yields one card per record for the first fifty records, in their order. */
  lemma CardsAreFirstFifty(data: Data)
    requires data.results.Items? && data.results.records != []
    ensures ViewOf(data).Cards?
    ensures |ViewOf(data).cards| == Min(|data.results.records|, MAX_CARDS)
    ensures forall i :: 0 <= i < |ViewOf(data).cards| ==> ViewOf(data).cards[i] == CardOf(data.results.records[i])
  {
  }

  /** A missing, null or otherwise falsy `results` is treated as the empty array. */
  lemma FalsyResultsMeanNoData(data: Data)
    requires data.results.Scalar? && !Truthy(data.results.value)
    ensures ViewOf(data) == NoData
  {
  }

  /** The children of `#list` after a `render` that completes: never the error or the loading card. */
  function Elements(v: Rendered): (e: seq<Element>)
    ensures ErrorCard !in e && LoadingCard !in e
  {
    match v
    case Threw => []
    case NoData => [NoDataCard]
    case Cards(cs) => seq(|cs|, i requires 0 <= i < |cs| => ItemCard(cs[i]))
  }

  // ----- the response -----

  /** What `res.json()` makes of a body: a document, or a rejection. */
  datatype Parsed = Invalid | Json(data: Data)

  /** The document `loadData` hands to `render`: only an ok response whose body parses gets there. */
  function Loaded(reply: Reply, parse: string -> Parsed): (d: Option<Data>)
    ensures d.Some? <==> reply.Served? && IsOkStatus(reply.response.status) && parse(reply.response.body).Json?
    ensures d.Some? ==> d.value == parse(reply.response.body).data
  {
    if reply.Served? && IsOkStatus(reply.response.status) then
      match parse(reply.response.body)
      case Json(data) => Some(data)
      case Invalid => None
    else None
  }

  /** `#list` after `loadData`: the error card when anything throws, else what render shows. */
  function FinalList(reply: Reply, parse: string -> Parsed): (l: seq<Element>)
    ensures l == [ErrorCard] <==> Loaded(reply, parse).None? || ViewOf(Loaded(reply, parse).value).Threw?
    ensures Loaded(reply, parse).Some? && !ViewOf(Loaded(reply, parse).value).Threw? ==>
              l == Elements(ViewOf(Loaded(reply, parse).value))
  {
    match Loaded(reply, parse)
    case None => [ErrorCard]
    case Some(data) => if ViewOf(data).Threw? then [ErrorCard] else Elements(ViewOf(data))
  }

  /** The list never mixes the error card with data, and never shows more than fifty cards. */
  lemma FinalListShape(reply: Reply, parse: string -> Parsed)
    ensures var l := FinalList(reply, parse);
            l == [ErrorCard] || l == [NoDataCard] || (0 < |l| <= MAX_CARDS && forall i :: 0 <= i < |l| ==> l[i].ItemCard?)
  {
    match Loaded(reply, parse)
    case None =>
    case Some(data) =>
      match ResultsArray(data)
      case None =>
      case Some(rs) =>
        if |rs| > 0 {
          var l := FinalList(reply, parse);
          assert |l| == Min(|rs|, MAX_CARDS);
        }
  }

  /**
   * The data file is never pre-cached and each load asks for a new URL. So
   * once an online load at `t1` has refreshed the current bucket, an offline
   * load at another time `t2` finds nothing, and the page shows the error
   * card, unless some bucket already held the URL for `t2`.
   */
  lemma OfflineReloadMisses(names: seq<string>, buckets: map<string, Bucket>, origin: string,
                            t1: nat, t2: nat, resp: Response, parse: string -> Parsed)
    requires t1 != t2
    requires forall n :: !HasEntry(buckets, n, RequestUrl(origin, t2))
    ensures var after := buckets[CACHE_NAME := Refreshed(Current(buckets), Request("GET", RequestUrl(origin, t1)), resp)];
            var found := FirstMatch(NamesAfterOpen(names, buckets), after, Request("GET", RequestUrl(origin, t2)));
            found == None && FinalList(FromCache(found), parse) == [ErrorCard]
  {
    var url2 := RequestUrl(origin, t2);
    var after := buckets[CACHE_NAME := Refreshed(Current(buckets), Request("GET", RequestUrl(origin, t1)), resp)];
    RequestUrlsDistinct(origin, t1, t2);
    forall n
      ensures !HasEntry(after, n, url2)
    {
      assert !HasEntry(buckets, n, url2);
    }
  }

  /**
   * Two loads through the worker: an online one at `t1`, then an offline one
   * at `t2`. The first is served the network's response; the second is
   * refused and the page shows the error card.
   */
  method OnlineThenOffline(storage: CacheStorage, origin: string, t1: nat, t2: nat, resp: Response,
                           parse: string -> Parsed) returns (first: Reply, second: Reply)
    requires storage.Valid() && t1 != t2
    requires forall n :: !HasEntry(storage.buckets, n, RequestUrl(origin, t2))
    modifies storage
    ensures storage.Valid()
    ensures first == Served(resp)
    ensures second == Failed && FinalList(second, parse) == [ErrorCard]
  {
    RequestIsNetworkFirst(origin, t1);
    RequestIsNetworkFirst(origin, t2);
    OfflineReloadMisses(storage.names, storage.buckets, origin, t1, t2, resp, parse);
    var usedNetwork;
    first, usedNetwork := HandleFetch(storage, Request("GET", RequestUrl(origin, t1)), Resp(resp));
    second, usedNetwork := HandleFetch(storage, Request("GET", RequestUrl(origin, t2)), NetErr);
  }

  /** The page as far as the script changes it. */
  class Page {
    var updatedAt: Stamp
    var list: seq<Element>

    constructor ()
      ensures updatedAt == Initial && list == []
    {
      updatedAt := Initial;
      list := [];
    }

    /**
     * `render(data)`: writes the label, then either the "no data" card or
     * the item cards one by one. On a truthy non-array `results` the label
     * is written, the list is cleared, and the call throws.
     */
    method Render(data: Data) returns (threw: bool)
      modifies this
      ensures updatedAt == StampOf(data)
      ensures threw <==> ViewOf(data).Threw?
      ensures list == Elements(ViewOf(data))
    {
      updatedAt := StampOf(data);
      var arr := ResultsArray(data);
      if arr == Some([]) {
        list := [NoDataCard];
        return false;
      }
      list := [];
      if arr.None? {
        return true;
      }
      var shown := arr.value[..Min(|arr.value|, MAX_CARDS)];
      var i := 0;
      while i < |shown|
        invariant 0 <= i <= |shown|
        invariant |list| == i && updatedAt == StampOf(data)
        invariant forall j :: 0 <= j < i ==> list[j] == ItemCard(CardOf(shown[j]))
      {
        list := list + [ItemCard(CardOf(shown[i]))];
        i := i + 1;
      }
      threw := false;
    }

    /**
     * `loadData(showLoader)`: `reply` is what the page's fetch settles to
     * (through the worker, when one controls the page), `parse` is the JSON
     * parser. The loading card, when shown, is always replaced before the
     * call ends.
     */
    method LoadData(showLoader: bool, reply: Reply, parse: string -> Parsed)
      modifies this
      ensures list == FinalList(reply, parse)
      ensures updatedAt == if Loaded(reply, parse).Some? then StampOf(Loaded(reply, parse).value) else old(updatedAt)
    {
      if showLoader {
        list := [LoadingCard];
      }
      var doc := Loaded(reply, parse);
      if doc.None? {
        list := [ErrorCard];
        return;
      }
      var threw := Render(doc.value);
      if threw {
        list := [ErrorCard];
      }
    }
  }
}
