/**
 * How the page reads what the producer writes: the document `main` saves as
 * `data/trending.json`, as the page's JSON parser hands it to `render`.
 * Python's None is JSON null; whole numbers stay numbers.
 */
module Pipeline {
  import opened Wrappers
  import App
  import PreOpen
  import Momentum

  /** A JSON number or null. */
  function NumOrNull(n: Option<int>): (f: App.Field)
    ensures f == App.Null <==> n.None?
    ensures n.Some? ==> f == App.Num(n.value)
  {
    match n
    case None => App.Null
    case Some(v) => App.Num(v)
  }

  /**
   * One output item as the page sees it: the symbol as a string, the flag
   * as a boolean, the pre-open numbers as numbers, and null exactly where
   * the quote fields are None.
   */
  function RecordOf(o: Momentum.OutItem): (r: App.Record)
    ensures r.symbol == App.Str(o.symbol) && (App.Truthy(r.matched) <==> o.matched)
    ensures r.changePreOpen == App.Num(o.changePreOpen) && r.openPrice == App.Num(o.openPrice)
    ensures r.prevClose == App.Num(o.prevClose)
    ensures (r.ltp == App.Null <==> o.ltp.None?) && (r.volume == App.Null <==> o.volume.None?)
    ensures (r.fromOpen == App.Null <==> o.fromOpen.None?)
    ensures o.ltp.Some? ==> r.ltp == App.Num(o.ltp.value)
    ensures o.volume.Some? ==> r.volume == App.Num(o.volume.value)
    ensures o.fromOpen.Some? ==> r.fromOpen == App.Num(o.fromOpen.value)
  {
    App.Record(App.Str(o.symbol), App.Bool(o.matched), App.Num(o.changePreOpen), App.Num(o.openPrice),
               App.Num(o.prevClose), NumOrNull(o.ltp), NumOrNull(o.volume), NumOrNull(o.fromOpen))
  }

  /** The document read back; None when `main` raised and wrote nothing. */
  function DataOf(out: Momentum.Output): (d: Option<App.Data>)
    ensures d.None? <==> out.Raised?
  {
    match out
    case Raised => None
    case ErrorDocument(ts, _, _) =>
      Some(App.Data(App.Undefined, App.Undefined, App.Str(ts), App.Scalar(App.Undefined)))
    case ResultDocument(utc, ist, _, results) =>
      var records := seq(|results|, i requires 0 <= i < |results| => RecordOf(results[i]));
      Some(App.Data(App.Str(ist), App.Str(utc), App.Undefined, App.Items(records)))
  }

  /** The error document shows the "no data" card, stamped with its `generated_at`. */
  lemma ErrorDocumentShowsNoData(ts: string, error: string, trends: seq<string>)
    ensures var d := DataOf(Momentum.ErrorDocument(ts, error, trends)).value;
            && App.ViewOf(d) == App.NoData
            && App.StampOf(d) == if ts != "" then App.Updated(App.Str(ts)) else App.NoTimestamp
  {
  }

  /**
   * A result document shows one card for each of its first fifty items, in
   * order: the Google tag exactly for matched items, a dash for LTP, Volume
   * and %FromOpen only where they are None, and never a dash for the
   * pre-open fields.
   */
  lemma ResultDocumentCards(utc: string, ist: string, trends: seq<string>, results: seq<Momentum.OutItem>)
    requires results != []
    ensures var v := App.ViewOf(DataOf(Momentum.ResultDocument(utc, ist, trends, results)).value);
            && v.Cards?
            && |v.cards| == Min(|results|, App.MAX_CARDS)
            && forall i :: 0 <= i < |v.cards| ==>
                 && v.cards[i].symbol == App.Str(results[i].symbol)
                 && (v.cards[i].googleTag <==> results[i].matched)
                 && (v.cards[i].ltp == App.Dash <==> results[i].ltp.None?)
                 && (v.cards[i].volume == App.Dash <==> results[i].volume.None?)
                 && (v.cards[i].fromOpen == App.Dash <==> results[i].fromOpen.None?)
                 && v.cards[i].changePreOpen == App.Value(App.Num(results[i].changePreOpen))
  {
    var d := DataOf(Momentum.ResultDocument(utc, ist, trends, results)).value;
    var v := App.ViewOf(d);
    App.CardsAreFirstFifty(d);
    forall i | 0 <= i < |v.cards|
      ensures v.cards[i] == App.CardOf(RecordOf(results[i]))
    {
    }
  }

  /** The page stamps a result document with its IST time when that is non-empty, else its UTC time. */
  lemma ResultDocumentStamp(utc: string, ist: string, trends: seq<string>, results: seq<Momentum.OutItem>)
    ensures var d := DataOf(Momentum.ResultDocument(utc, ist, trends, results)).value;
            App.StampOf(d) == if ist != "" then App.Updated(App.Str(ist))
                              else if utc != "" then App.Updated(App.Str(utc))
                              else App.NoTimestamp
  {
  }

  /**
   * The page shows the min(n, 50) biggest pre-open movers of the n kept
   * rows, largest change first: the 200-row cut never hides a card, and a
   * kept row without a card moved no more than any row with one.
   */
  lemma PageShowsTopMovers(kept: seq<PreOpen.Row>, utc: string, ist: string, trends: seq<string>,
                           quotes: nat -> Momentum.QuoteReply, pct: (int, int) -> int)
    requires kept != []
    ensures var results := Momentum.ResultsFor(PreOpen.SortDesc(kept), trends, quotes, pct);
            var v := App.ViewOf(DataOf(Momentum.ResultDocument(utc, ist, trends, results)).value);
            && v.Cards?
            && |v.cards| == Min(|kept|, App.MAX_CARDS)
            && (forall i :: 0 <= i < |v.cards| ==> v.cards[i].changePreOpen == App.Value(App.Num(results[i].changePreOpen)))
            && (forall i, j :: 0 <= i < j < |v.cards| ==> v.cards[i].changePreOpen.v.n >= v.cards[j].changePreOpen.v.n)
            && forall r, i ::
                 (r in kept && (forall j :: 0 <= j < |v.cards| ==> Momentum.RowOfItem(results[j]) != r) && 0 <= i < |v.cards|)
                 ==> r.change <= v.cards[i].changePreOpen.v.n
  {
    var results := Momentum.ResultsFor(PreOpen.SortDesc(kept), trends, quotes, pct);
    Momentum.ResultsAreTopMovers(kept, trends, quotes, pct);
    Momentum.ResultsAreBiggest(kept, trends, quotes, pct, Min(|kept|, App.MAX_CARDS));
    ResultDocumentCards(utc, ist, trends, results);
  }
}
