/**
 * NSE pre-open rows: the loop over `data` that keeps the items with a
 * symbol, a previous close and an indicative open price, and the descending
 * sort of the kept rows by their percentage change. Prices are whole
 * numbers here, and the rounded percentage is an oracle `pct(open, prev)`.
 */
module PreOpen {
  import opened Wrappers

  /** An item's `metadata`: each key may be missing or null (None). A missing `metadata` has all three None. */
  datatype Meta = Meta(symbol: Option<string>, previousClose: Option<int>, iep: Option<int>)

  /** A kept row: Symbol, PrevClose, OpenPrice and %Change. */
  datatype Row = Row(symbol: string, prevClose: int, openPrice: int, change: int)

  /** Python truthiness of an optional string and of an optional number. */
  predicate TruthyText(s: Option<string>) {
    s.Some? && s.value != ""
  }

  predicate TruthyNumber(n: Option<int>) {
    n.Some? && n.value != 0
  }

  /** The row guard: a truthy symbol, previous close and `iep`, with a positive previous close. */
  predicate Qualifies(m: Meta) {
    TruthyText(m.symbol) && TruthyNumber(m.previousClose) && TruthyNumber(m.iep) && m.previousClose.value > 0
  }

  function RowOf(m: Meta, pct: (int, int) -> int): (r: Row)
    requires Qualifies(m)
  {
    Row(m.symbol.value, m.previousClose.value, m.iep.value, pct(m.iep.value, m.previousClose.value))
  }

  /**
   * The rows the loop appends, in the order of the items: at most one per
   * item, each with a symbol, a positive previous close and a non-zero open
   * price.
   */
  function Kept(items: seq<Meta>, pct: (int, int) -> int): (rows: seq<Row>)
    ensures |rows| <= |items|
    ensures forall r :: r in rows ==> r.symbol != "" && r.prevClose > 0 && r.openPrice != 0
  {
    if items == [] then []
    else
      var last := items[|items| - 1];
      Kept(items[..|items| - 1], pct) + (if Qualifies(last) then [RowOf(last, pct)] else [])
  }

  /** Some item qualifies and produces `r`. */
  ghost predicate ProducedBy(items: seq<Meta>, pct: (int, int) -> int, r: Row) {
    exists i :: 0 <= i < |items| && Qualifies(items[i]) && RowOf(items[i], pct) == r
  }

  /** An item list produces a row when its prefix does, or its last item does. */
  lemma ProducedBySnoc(items: seq<Meta>, pct: (int, int) -> int, r: Row)
    requires items != []
    ensures var init, last := items[..|items| - 1], items[|items| - 1];
            ProducedBy(items, pct, r) <==> ProducedBy(init, pct, r) || (Qualifies(last) && RowOf(last, pct) == r)
  {
    var init := items[..|items| - 1];
    if ProducedBy(items, pct, r) {
      var i :| 0 <= i < |items| && Qualifies(items[i]) && RowOf(items[i], pct) == r;
      if i < |init| {
        assert items[i] == init[i];
      }
    }
    if ProducedBy(init, pct, r) {
      var i :| 0 <= i < |init| && Qualifies(init[i]) && RowOf(init[i], pct) == r;
      assert items[i] == init[i];
    }
  }

  /** A row is kept exactly when some item qualifies and produces it. */
  lemma {:induction false} KeptExactly(items: seq<Meta>, pct: (int, int) -> int, r: Row)
    ensures r in Kept(items, pct) <==> exists i :: 0 <= i < |items| && Qualifies(items[i]) && RowOf(items[i], pct) == r
  {
    if items != [] {
      var init := items[..|items| - 1];
      KeptExactly(init, pct, r);
      ProducedBySnoc(items, pct, r);
      assert r in Kept(items, pct) <==> ProducedBy(items, pct, r);
    }
  }

  /** The loop of `fetch_nse_preopen` that builds `rows`. */
  method CollectRows(items: seq<Meta>, pct: (int, int) -> int) returns (rows: seq<Row>)
    ensures rows == Kept(items, pct)
  {
    rows := [];
    var i := 0;
    while i < |items|
      invariant 0 <= i <= |items|
      invariant rows == Kept(items[..i], pct)
    {
      assert items[..i + 1][..i] == items[..i];
      var m := items[i];
      if TruthyText(m.symbol) && TruthyNumber(m.previousClose) && TruthyNumber(m.iep) && m.previousClose.value > 0 {
        var change := pct(m.iep.value, m.previousClose.value);
        rows := rows + [Row(m.symbol.value, m.previousClose.value, m.iep.value, change)];
      }
      i := i + 1;
    }
    assert items[..|items|] == items;
  }

  // ----- sort_values("%Change", ascending=False) -----

  predicate SortedDesc(rows: seq<Row>) {
    forall i, j :: 0 <= i < j < |rows| ==> rows[i].change >= rows[j].change
  }

  /** Places `r` into a non-increasing sequence, before the first row with a smaller change. */
  function Insert(r: Row, rows: seq<Row>): (s: seq<Row>)
    requires SortedDesc(rows)
    ensures SortedDesc(s)
    ensures multiset(s) == multiset(rows) + multiset{r}
    ensures |s| == |rows| + 1
    ensures s[0] == r || (rows != [] && s[0] == rows[0])
  {
    if rows == [] || rows[0].change < r.change then [r] + rows
    else
      var tail := Insert(r, rows[1..]);
      assert rows == [rows[0]] + rows[1..];
      assert rows[0].change >= tail[0].change;
      var s := [rows[0]] + tail;
      assert forall j :: 0 < j < |s| ==> s[j] == tail[j - 1];
      assert forall j :: 0 < j < |s| ==> s[0].change >= s[j].change;
      s
  }

  /** The rows ordered by change, largest first. Equal changes are kept in one fixed order. */
  function SortDesc(rows: seq<Row>): (s: seq<Row>)
    ensures SortedDesc(s)
    ensures multiset(s) == multiset(rows)
    ensures |s| == |rows|
  {
    if rows == [] then []
    else
      assert rows == [rows[0]] + rows[1..];
      Insert(rows[0], SortDesc(rows[1..]))
  }

  /** Sorting neither adds nor drops a row. */
  lemma SortDescSameRows(rows: seq<Row>, r: Row)
    ensures r in SortDesc(rows) <==> r in rows
  {
    assert r in SortDesc(rows) <==> r in multiset(SortDesc(rows));
    assert r in rows <==> r in multiset(rows);
  }

  // ----- fetch_nse_preopen -----

  /** The pre-open request: it raised, or it answered with a status and a body that is JSON (Some items) or not (None). */
  datatype PreOpenReply = PreOpenError | PreOpenResponse(status: int, body: Option<seq<Meta>>)

  /**
   * What `fetch_nse_preopen` returns: an empty frame on every early return,
   * the sorted rows, or an uncaught KeyError when no item qualifies (an
   * empty DataFrame has no `%Change` column to sort on).
   */
  datatype Frame = EmptyFrame | KeyErrorRaised | Sorted(rows: seq<Row>)

  method FetchPreOpen(reply: PreOpenReply, pct: (int, int) -> int) returns (f: Frame)
    ensures f == EmptyFrame <==> reply.PreOpenError? || reply.status != 200 || reply.body.None?
    ensures f == KeyErrorRaised <==> reply.PreOpenResponse? && reply.status == 200 && reply.body.Some? && Kept(reply.body.value, pct) == []
    ensures f.Sorted? ==> f.rows == SortDesc(Kept(reply.body.value, pct)) && f.rows != []
  {
    if reply.PreOpenError? || reply.status != 200 || reply.body.None? {
      return EmptyFrame;
    }
    var rows := CollectRows(reply.body.value, pct);
    if rows == [] {
      return KeyErrorRaised;
    }
    f := Sorted(SortDesc(rows));
  }
}
