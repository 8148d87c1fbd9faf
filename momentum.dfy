/**
 * The producer's `main`: match the pre-open symbols against the trend
 * terms, take the top 200 movers, work out how long to wait for 09:20 IST,
 * fetch a live quote per row, and build the JSON document. Clocks, network
 * answers and the float arithmetic are parameters.
 */
module Momentum {
  import opened Wrappers
  import opened Strings
  import opened Trends
  import opened PreOpen

  /** At most this many movers get a live quote and an output item. */
  const TOP_N: nat := 200

  // ----- matched -----

  /** `any(s in t for t in ts)`. */
  function AnyContains(ts: seq<string>, s: string): (r: bool)
    ensures r <==> exists i :: 0 <= i < |ts| && IsSubstring(s, ts[i])
  {
    if ts == [] then false
    else
      var rest := AnyContains(ts[1..], s);
      assert rest <==> exists i :: 1 <= i < |ts| && IsSubstring(s, ts[i]) by {
        forall i | 1 <= i < |ts|
          ensures ts[i] == ts[1..][i - 1]
        {
        }
      }
      Contains(ts[0], s) || rest
  }

  function LowerAll(ts: seq<string>): (r: seq<string>)
    ensures |r| == |ts| && forall i :: 0 <= i < |ts| ==> r[i] == Lower(ts[i])
  {
    seq(|ts|, i requires 0 <= i < |ts| => Lower(ts[i]))
  }

  /** `matched(symbol)`: the lower-cased symbol occurs in some lower-cased trend term. */
  function Matched(trends: seq<string>, symbol: string): (r: bool)
    ensures r <==> exists i :: 0 <= i < |trends| && IsSubstring(Lower(symbol), Lower(trends[i]))
  {
    var lowered := LowerAll(trends);
    var r := AnyContains(lowered, Lower(symbol));
    assert forall i :: 0 <= i < |trends| ==> lowered[i] == Lower(trends[i]);
    r
  }

  /** The `Matched` column: `matched` applied per row when there are trends, else False throughout. */
  function MatchFlags(trends: seq<string>, rows: seq<Row>): (flags: seq<bool>)
    ensures |flags| == |rows|
    ensures forall i :: 0 <= i < |rows| ==> flags[i] == Matched(trends, rows[i].symbol)
  {
    if trends != [] then seq(|rows|, i requires 0 <= i < |rows| => Matched(trends, rows[i].symbol))
    else seq(|rows|, i => false)
  }

  /** With no trends, no row is matched. */
  lemma NoTrendsNoMatches(rows: seq<Row>)
    ensures forall i :: 0 <= i < |rows| ==> !MatchFlags([], rows)[i]
  {
  }

  // ----- fetch_live_quote -----

  /** The quote JSON's `priceInfo.lastPrice`, `metadata.totalTradedVolume` and `priceInfo.totalTradedVolume`. */
  datatype QuoteJson = QuoteJson(lastPrice: Option<int>, metaVolume: Option<int>, priceVolume: Option<int>)

  /** The quote request: it raised, or it answered with a status, a text and a body that is JSON or not. */
  datatype QuoteReply = QuoteError | QuoteResponse(status: int, text: string, json: Option<QuoteJson>)

  datatype Quote = Quote(ltp: Option<int>, volume: Option<int>)

  /** Python's `a or b` on optional numbers. */
  function PyOr(a: Option<int>, b: Option<int>): (r: Option<int>)
    ensures TruthyNumber(a) ==> r == a
    ensures !TruthyNumber(a) ==> r == b
    ensures a == b ==> r == a
  {
    if TruthyNumber(a) then a else b
  }

  predicate QuoteUsable(reply: QuoteReply) {
    reply.QuoteResponse? && reply.status == 200 && reply.text != "" && reply.json.Some?
  }

  /**
   * `fetch_live_quote`: LTP is `lastPrice` as it stands (the `x or x` and the
   * later `is None` repair change nothing), volume falls through `or`; any
   * failure gives None for both.
   */
  function FetchLiveQuote(reply: QuoteReply): (q: Quote)
    ensures !QuoteUsable(reply) ==> q == Quote(None, None)
    ensures QuoteUsable(reply) ==> q.ltp == reply.json.value.lastPrice
    ensures QuoteUsable(reply) && TruthyNumber(reply.json.value.metaVolume) ==> q.volume == reply.json.value.metaVolume
    ensures QuoteUsable(reply) && !TruthyNumber(reply.json.value.metaVolume) ==> q.volume == reply.json.value.priceVolume
  {
    if QuoteUsable(reply) then
      var j := reply.json.value;
      var ltp := PyOr(j.lastPrice, j.lastPrice);
      var volume := PyOr(j.metaVolume, j.priceVolume);
      Quote(if ltp.None? then j.lastPrice else ltp, volume)
    else Quote(None, None)
  }

  // ----- %FromOpen and the output items -----

  /**
   * Python's true division of two whole numbers rounds the exact quotient to
   * the nearest float and raises OverflowError when that rounds past the
   * largest finite float, 2^1024 - 2^971. Quotients from halfway above it,
   * 2^1024 - 2^970, round up to 2^1024. (Multiplying by 100 and `round`
   * turn a large finite float into infinity without raising.)
   */
  const FLOAT_DIVISION_LIMIT: int := 0xfffffffffffffc00000000000000000000000000000000000000000000000000000000000000000000000000000000000000000000000000000000000000000000000000000000000000000000000000000000000000000000000000000000000000000000000000000000000000000000000000000000000000000000000000

  const TWO_TO_64: int := 0x1_0000_0000_0000_0000
  const TWO_TO_256: int := TWO_TO_64 * TWO_TO_64 * TWO_TO_64 * TWO_TO_64
  const TWO_TO_1024: int := TWO_TO_256 * TWO_TO_256 * TWO_TO_256 * TWO_TO_256

  /** The limit written out is 2^1024 - 2^970 (2^970 being 2^1024 / 2^54). */
  lemma FloatDivisionLimitValue()
    ensures FLOAT_DIVISION_LIMIT == TWO_TO_1024 - TWO_TO_1024 / 0x40_0000_0000_0000
  {
  }

  function Abs(x: int): nat {
    if x < 0 then -x else x
  }

  /** `(ltp - open_price) / open_price` raises OverflowError. */
  predicate DivisionOverflows(ltp: int, openPrice: int) {
    Abs(ltp - openPrice) >= FLOAT_DIVISION_LIMIT * Abs(openPrice)
  }

  /**
   * `%FromOpen`: computed (by the oracle `pct(ltp, open)`) only when both LTP
   * and the open price are truthy; the bare `except` turns an overflowing
   * division into None.
   */
  function FromOpen(ltp: Option<int>, openPrice: int, pct: (int, int) -> int): (r: Option<int>)
    ensures r.Some? <==> TruthyNumber(ltp) && openPrice != 0 && !DivisionOverflows(ltp.value, openPrice)
    ensures r.Some? ==> r.value == pct(ltp.value, openPrice)
  {
    if TruthyNumber(ltp) && openPrice != 0 && !DivisionOverflows(ltp.value, openPrice) then Some(pct(ltp.value, openPrice))
    else None
  }

  /** Only an LTP beyond about 2^1024 can make the division overflow: for any smaller one `%FromOpen` is computed. */
  lemma OrdinaryLtpNeverOverflows(ltp: int, openPrice: int)
    requires openPrice != 0 && Abs(ltp) < FLOAT_DIVISION_LIMIT - 1
    ensures !DivisionOverflows(ltp, openPrice)
  {
    var k := Abs(openPrice) - 1;
    assert FLOAT_DIVISION_LIMIT * Abs(openPrice) == FLOAT_DIVISION_LIMIT + FLOAT_DIVISION_LIMIT * k;
    assert FLOAT_DIVISION_LIMIT * k >= k;
  }

  /** A whole-number LTP of six times the limit (about 10^309) against an open price of 5 overflows: no `%FromOpen`. */
  lemma HugeLtpGivesNoFromOpen(pct: (int, int) -> int)
    ensures FromOpen(Some(6 * FLOAT_DIVISION_LIMIT), 5, pct) == None
  {
  }

  datatype OutItem = OutItem(
    symbol: string, prevClose: int, openPrice: int, changePreOpen: int, matched: bool,
    ltp: Option<int>, volume: Option<int>, fromOpen: Option<int>)

  /** The pre-open row an output item repeats. */
  function RowOfItem(o: OutItem): Row {
    Row(o.symbol, o.prevClose, o.openPrice, o.changePreOpen)
  }

  /** The item one row and its quote give. */
  function ItemOf(row: Row, matched: bool, reply: QuoteReply, pct: (int, int) -> int): (o: OutItem)
    ensures RowOfItem(o) == row && o.matched == matched
    ensures o.ltp == FetchLiveQuote(reply).ltp && o.volume == FetchLiveQuote(reply).volume
    ensures o.fromOpen == FromOpen(FetchLiveQuote(reply).ltp, row.openPrice, pct)
  {
    var q := FetchLiveQuote(reply);
    OutItem(row.symbol, row.prevClose, row.openPrice, row.change, matched, q.ltp, q.volume,
            FromOpen(q.ltp, row.openPrice, pct))
  }

  /**
   * The loop over `top_df`: one item per row, in order; `quotes(i)` is what
   * the i-th quote request answers.
   */
  method BuildResults(top: seq<Row>, flags: seq<bool>, quotes: nat -> QuoteReply, pct: (int, int) -> int)
    returns (out: seq<OutItem>)
    requires |flags| == |top|
    ensures |out| == |top|
    ensures forall i :: 0 <= i < |top| ==> out[i] == ItemOf(top[i], flags[i], quotes(i), pct)
  {
    out := [];
    var i := 0;
    while i < |top|
      invariant 0 <= i <= |top|
      invariant |out| == i
      invariant forall j :: 0 <= j < i ==> out[j] == ItemOf(top[j], flags[j], quotes(j), pct)
    {
      var row := top[i];
      var quote := FetchLiveQuote(quotes(i));
      var fromOpen: Option<int> := None;
      if TruthyNumber(quote.ltp) && row.openPrice != 0 {
        if !DivisionOverflows(quote.ltp.value, row.openPrice) {
          fromOpen := Some(pct(quote.ltp.value, row.openPrice));
        }
      }
      out := out + [OutItem(row.symbol, row.prevClose, row.openPrice, row.change, flags[i],
                            quote.ltp, quote.volume, fromOpen)];
      i := i + 1;
    }
  }

  /**
   * For a kept row, `%FromOpen` is present exactly when the quote's LTP is
   * truthy and the division does not overflow.
   */
  lemma FromOpenOfKeptRow(items: seq<Meta>, pctChange: (int, int) -> int, row: Row, matched: bool,
                          reply: QuoteReply, pct: (int, int) -> int)
    requires row in Kept(items, pctChange)
    ensures var ltp := FetchLiveQuote(reply).ltp;
            ItemOf(row, matched, reply, pct).fromOpen.Some? <==> TruthyNumber(ltp) && !DivisionOverflows(ltp.value, row.openPrice)
  {
  }

  /** A failed quote leaves LTP, Volume and `%FromOpen` all None. */
  lemma FailedQuoteGivesNothing(row: Row, matched: bool, reply: QuoteReply, pct: (int, int) -> int)
    requires !QuoteUsable(reply)
    ensures var o := ItemOf(row, matched, reply, pct);
            o.ltp.None? && o.volume.None? && o.fromOpen.None?
  {
  }

  // ----- waiting for 09:20 IST -----

  const IST_OFFSET: int := 5 * 3600 + 30 * 60
  const TARGET_OF_DAY: int := 9 * 3600 + 20 * 60
  const DAY: int := 24 * 3600
  const FETCH_LTP_AT_920: bool := true

  /** 09:20:00 IST on the IST day of the instant `ist` (seconds): midnight of that day plus 9 h 20 min. */
  function TargetOfDay(ist: int): (t: int)
    ensures var midnight := t - TARGET_OF_DAY;
            midnight % DAY == 0 && midnight <= ist < midnight + DAY
  {
    ist - ist % DAY + TARGET_OF_DAY
  }

  /** The wait, in whole seconds, from UTC instant `utc` to 09:20 IST of that IST day; none once it is past. */
  function WaitSeconds(utc: int): (w: int)
    ensures var ist := utc + IST_OFFSET;
            && 0 <= w <= TARGET_OF_DAY
            && (w == 0 <==> ist >= TargetOfDay(ist))
            && (w > 0 ==> ist + w == TargetOfDay(ist))
  {
    var ist := utc + IST_OFFSET;
    var target := TargetOfDay(ist);
    if ist > target then 0 else target - ist
  }

  /** How long `main` sleeps before fetching quotes: the wait plus a two-second cushion, when there is a wait. */
  function SleepSeconds(utc: int): (s: int)
    ensures s >= 0
    ensures s == 0 <==> WaitSeconds(utc) == 0
    ensures var ist := utc + IST_OFFSET; s > 0 ==> ist + s == TargetOfDay(ist) + 2
    ensures var ist := utc + IST_OFFSET; ist + s >= TargetOfDay(ist)
  {
    var w := WaitSeconds(utc);
    if FETCH_LTP_AT_920 && w > 0 then w + 2 else 0
  }

  // ----- main -----

  /** What `main` leaves behind: the error document, the result document, or nothing because it raised. */
  datatype Output =
    | ErrorDocument(generatedAt: string, error: string, trends: seq<string>)
    | ResultDocument(generatedAtUtc: string, generatedAtIst: string, googleTrends: seq<string>, results: seq<OutItem>)
    | Raised

  /** The output items for sorted rows: the first 200 rows, each with its flag and its quote. */
  function ResultsFor(sorted: seq<Row>, trends: seq<string>, quotes: nat -> QuoteReply, pct: (int, int) -> int): (out: seq<OutItem>)
    ensures |out| == Min(|sorted|, TOP_N)
  {
    var top := sorted[..Min(|sorted|, TOP_N)];
    seq(|top|, i requires 0 <= i < |top| => ItemOf(top[i], Matched(trends, top[i].symbol), quotes(i), pct))
  }

  /**
   * `main`. `startIso` and `endIso` are the two clock readings it writes;
   * `utcNow` is the clock (whole seconds) when it decides how long to wait.
   */
  method Run(rss: RssReply, preOpen: PreOpenReply, quotes: nat -> QuoteReply,
             pctChange: (int, int) -> int, pctFromOpen: (int, int) -> int,
             startIso: string, endIso: string, utcNow: int)
    returns (out: Output, slept: int)
    ensures slept == if out.ResultDocument? then SleepSeconds(utcNow) else 0
    ensures out == Raised <==> preOpen.PreOpenResponse? && preOpen.status == 200 && preOpen.body.Some? && Kept(preOpen.body.value, pctChange) == []
    ensures out.ErrorDocument? <==> preOpen.PreOpenError? || preOpen.status != 200 || preOpen.body.None?
    ensures out.ErrorDocument? ==> out == ErrorDocument(startIso, "No NSE pre-open data", GoogleTerms(rss))
    ensures out.ResultDocument? ==>
              && out.generatedAtUtc == startIso && out.generatedAtIst == endIso
              && out.googleTrends == GoogleTerms(rss)
              && out.results == ResultsFor(SortDesc(Kept(preOpen.body.value, pctChange)), GoogleTerms(rss), quotes, pctFromOpen)
  {
    slept := 0;
    var trends := GoogleTerms(rss);
    var frame := FetchPreOpen(preOpen, pctChange);
    if frame.KeyErrorRaised? {
      return Raised, slept;
    }
    if frame.EmptyFrame? {
      return ErrorDocument(startIso, "No NSE pre-open data", trends), slept;
    }
    var rows := frame.rows;
    var flags := MatchFlags(trends, rows);
    var n := Min(|rows|, TOP_N);
    var top, topFlags := rows[..n], flags[..n];
    slept := SleepSeconds(utcNow);
    var results := BuildResults(top, topFlags, quotes, pctFromOpen);
    assert results == ResultsFor(rows, trends, quotes, pctFromOpen) by {
      var expected := ResultsFor(rows, trends, quotes, pctFromOpen);
      forall i | 0 <= i < n
        ensures results[i] == expected[i]
      {
        ResultItem(rows, trends, quotes, pctFromOpen, i);
        assert top[i] == rows[i] && topFlags[i] == Matched(trends, rows[i].symbol);
      }
    }
    out := ResultDocument(startIso, endIso, trends, results);
  }

  /** Item `i` of the results is built from row `i` of the sorted rows, with that row's flag and the `i`-th quote. */
  lemma ResultItem(sorted: seq<Row>, trends: seq<string>, quotes: nat -> QuoteReply, pct: (int, int) -> int, i: nat)
    requires i < Min(|sorted|, TOP_N)
    ensures ResultsFor(sorted, trends, quotes, pct)[i] == ItemOf(sorted[i], Matched(trends, sorted[i].symbol), quotes(i), pct)
  {
  }

  /** The results are at most 200 and ordered by pre-open change, largest first. */
  lemma ResultsAreTopMovers(kept: seq<Row>, trends: seq<string>, quotes: nat -> QuoteReply, pct: (int, int) -> int)
    ensures var out := ResultsFor(SortDesc(kept), trends, quotes, pct);
            && |out| == Min(|kept|, TOP_N)
            && forall i, j :: 0 <= i < j < |out| ==> out[i].changePreOpen >= out[j].changePreOpen
  {
    var sorted := SortDesc(kept);
    var out := ResultsFor(sorted, trends, quotes, pct);
    forall i, j | 0 <= i < j < |out|
      ensures out[i].changePreOpen >= out[j].changePreOpen
    {
      ResultItem(sorted, trends, quotes, pct, i);
      ResultItem(sorted, trends, quotes, pct, j);
    }
  }

  /**
   * The results are the biggest movers: a kept row that is none of the first
   * `m` results has a change no larger than any of them (`m` may be the
   * whole 200, or the 50 the page shows).
   */
  lemma ResultsAreBiggest(kept: seq<Row>, trends: seq<string>, quotes: nat -> QuoteReply, pct: (int, int) -> int, m: nat)
    requires m <= Min(|kept|, TOP_N)
    ensures var out := ResultsFor(SortDesc(kept), trends, quotes, pct);
            forall r, i :: r in kept && (forall j :: 0 <= j < m ==> RowOfItem(out[j]) != r) && 0 <= i < m ==>
              r.change <= out[i].changePreOpen
  {
    var sorted := SortDesc(kept);
    var out := ResultsFor(sorted, trends, quotes, pct);
    forall r, i | r in kept && (forall j :: 0 <= j < m ==> RowOfItem(out[j]) != r) && 0 <= i < m
      ensures r.change <= out[i].changePreOpen
    {
      SortDescSameRows(kept, r);
      var k :| 0 <= k < |sorted| && sorted[k] == r;
      if k < m {
        ResultItem(sorted, trends, quotes, pct, k);
      }
      ResultItem(sorted, trends, quotes, pct, i);
    }
  }

  /** Each result is built from a kept row: its symbol, prices and change are that row's. */
  lemma ResultsComeFromKeptRows(kept: seq<Row>, trends: seq<string>, quotes: nat -> QuoteReply, pct: (int, int) -> int)
    ensures var out := ResultsFor(SortDesc(kept), trends, quotes, pct);
            forall i :: 0 <= i < |out| ==> RowOfItem(out[i]) in kept
  {
    var sorted := SortDesc(kept);
    var out := ResultsFor(sorted, trends, quotes, pct);
    forall i | 0 <= i < |out|
      ensures RowOfItem(out[i]) in kept
    {
      ResultItem(sorted, trends, quotes, pct, i);
      assert RowOfItem(out[i]) == sorted[i];
      SortDescSameRows(kept, sorted[i]);
    }
  }

  /** Each result's flag says whether its symbol occurs in one of the trend terms. */
  lemma ResultsFlagTrends(sorted: seq<Row>, trends: seq<string>, quotes: nat -> QuoteReply, pct: (int, int) -> int)
    ensures var out := ResultsFor(sorted, trends, quotes, pct);
            forall i :: 0 <= i < |out| ==>
              (out[i].matched <==> exists k :: 0 <= k < |trends| && IsSubstring(Lower(out[i].symbol), Lower(trends[k])))
  {
    var out := ResultsFor(sorted, trends, quotes, pct);
    forall i | 0 <= i < |out|
      ensures out[i].matched == Matched(trends, out[i].symbol)
    {
      ResultItem(sorted, trends, quotes, pct, i);
    }
  }
}
