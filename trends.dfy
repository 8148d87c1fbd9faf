/**
 * Google Trends terms from the daily RSS feed: every `<title>…</title>`
 * found by the non-greedy pattern `<title>(.*?)</title>` (where `.` does not
 * match a newline), the first (the feed's own title) dropped, each stripped.
 */
module Trends {
  import opened Wrappers
  import opened Strings

  const OPEN: string := "<title>"
  const CLOSE: string := "</title>"

  predicate NoNewline(s: string) {
    forall i :: 0 <= i < |s| ==> s[i] != '\n'
  }

  /**
   * Where the lazy `(.*?)</title>` that starts at `k` stops: the first
   * `</title>` at or after `k` reached without crossing a newline.
   */
  function CloseFrom(text: string, k: nat): (r: Option<nat>)
    requires k <= |text|
    ensures r.Some? ==> k <= r.value && OccursAt(CLOSE, text, r.value) && NoNewline(text[k..r.value])
    ensures r.Some? ==> forall j :: k <= j < r.value ==> !OccursAt(CLOSE, text, j)
    ensures r.None? ==> forall j :: k <= j <= |text| && NoNewline(text[k..j]) ==> !OccursAt(CLOSE, text, j)
    decreases |text| - k
  {
    if OccursAt(CLOSE, text, k) then Some(k)
    else if k == |text| || text[k] == '\n' then
      assert forall j :: k < j <= |text| ==> text[k..j][0] == text[k];
      None
    else
      var r := CloseFrom(text, k + 1);
      if r.Some? then
        assert text[k..r.value] == [text[k]] + text[k + 1..r.value];
        r
      else
        assert forall j :: k + 1 <= j <= |text| ==> text[k..j] == [text[k]] + text[k + 1..j];
        r
  }

  /** A title the pattern can match: no newline, no `</title>`, and found wrapped in the tags in `text`. */
  ghost predicate Delimited(t: string, text: string) {
    NoNewline(t) && !IsSubstring(CLOSE, t) && IsSubstring(OPEN + t + CLOSE, text)
  }

  /**
   * `re.findall` on the title pattern, scanning from `pos`; matches never
   * overlap. Each title found is delimited in the text.
   */
  function TitlesFrom(text: string, pos: nat): (titles: seq<string>)
    requires pos <= |text|
    ensures forall t :: t in titles ==> Delimited(t, text)
    decreases |text| - pos
  {
    if pos == |text| then []
    else if OccursAt(OPEN, text, pos) && CloseFrom(text, pos + |OPEN|).Some? then
      var c := CloseFrom(text, pos + |OPEN|).value;
      OneTitleDelimited(text, pos);
      [text[pos + |OPEN|..c]] + TitlesFrom(text, c + |CLOSE|)
    else TitlesFrom(text, pos + 1)
  }

  /** `re.findall(r"<title>(.*?)</title>", text)`: every title it returns is delimited in the text. */
  function FindTitles(text: string): (titles: seq<string>)
    ensures forall t :: t in titles ==> Delimited(t, text)
  {
    TitlesFrom(text, 0)
  }

  /** The title matched at `pos` sits between `<title>` and `</title>`, holds no newline and no `</title>`. */
  lemma OneTitleDelimited(text: string, pos: nat)
    requires pos < |text| && OccursAt(OPEN, text, pos) && CloseFrom(text, pos + |OPEN|).Some?
    ensures Delimited(text[pos + |OPEN|..CloseFrom(text, pos + |OPEN|).value], text)
  {
    var k := pos + |OPEN|;
    var c := CloseFrom(text, k).value;
    var t := text[k..c];
    assert text[pos..k] == OPEN;
    assert text[c..c + |CLOSE|] == CLOSE;
    assert text[pos..c + |CLOSE|] == text[pos..k] + t + text[c..c + |CLOSE|];
    assert OccursAt(OPEN + t + CLOSE, text, pos);
    if IsSubstring(CLOSE, t) {
      var m :| OccursAt(CLOSE, t, m);
      OccursInSlice(CLOSE, text, k, c, m);
      assert false;
    }
  }

  /** A feed built from titles, each wrapped in `<title>` and `</title>`. */
  function Feed(titles: seq<string>): string {
    if titles == [] then "" else OPEN + titles[0] + CLOSE + Feed(titles[1..])
  }

  predicate Plain(t: string) {
    forall i :: 0 <= i < |t| ==> t[i] != '<' && t[i] != '\n'
  }

  /** The lazy scan from `k` stops at the first `</title>` when nothing before it is a `<` or a newline. */
  lemma {:induction false} CloseScan(text: string, k: nat, c: nat)
    requires k <= c && c + |CLOSE| <= |text| && OccursAt(CLOSE, text, c)
    requires forall j :: k <= j < c ==> text[j] != '<' && text[j] != '\n'
    ensures CloseFrom(text, k) == Some(c)
    decreases c - k
  {
    if k < c {
      assert text[k] != CLOSE[0];
      assert !OccursAt(CLOSE, text, k);
      CloseScan(text, k + 1, c);
    }
  }

  /** Reading back a feed of plain titles yields exactly those titles, in order. */
  lemma {:induction false} FeedRoundTrip(titles: seq<string>)
    requires forall i :: 0 <= i < |titles| ==> Plain(titles[i])
    ensures FindTitles(Feed(titles)) == titles
  {
    FeedRoundTripFrom(titles, "");
    assert "" + Feed(titles) == Feed(titles);
  }

  /** How the scan meets one wrapped plain title that follows `done`. */
  lemma WrappedTitle(done: string, t: string, rest: string)
    requires Plain(t)
    ensures var text := done + OPEN + t + CLOSE + rest;
            var k := |done| + |OPEN|;
            && OccursAt(OPEN, text, |done|)
            && CloseFrom(text, k) == Some(k + |t|)
            && text[k..k + |t|] == t
  {
    var text := done + OPEN + t + CLOSE + rest;
    var k := |done| + |OPEN|;
    assert text[|done|..k] == OPEN;
    assert text[k..k + |t|] == t;
    assert text[k + |t|..k + |t| + |CLOSE|] == CLOSE;
    CloseScan(text, k, k + |t|);
  }

  /** The scan at `done` takes the wrapped title and goes on right after its `</title>`. */
  lemma TitlesFromWrapped(done: string, t: string, rest: string)
    requires Plain(t)
    ensures var next := done + OPEN + t + CLOSE;
            TitlesFrom(next + rest, |done|) == [t] + TitlesFrom(next + rest, |next|)
  {
    var next := done + OPEN + t + CLOSE;
    var text := next + rest;
    assert text == done + OPEN + t + CLOSE + rest;
    WrappedTitle(done, t, rest);
  }

  lemma {:induction false} FeedRoundTripFrom(titles: seq<string>, done: string)
    requires forall i :: 0 <= i < |titles| ==> Plain(titles[i])
    ensures TitlesFrom(done + Feed(titles), |done|) == titles
    decreases |titles|
  {
    if titles != [] {
      var t, tail := titles[0], titles[1..];
      var next := done + OPEN + t + CLOSE;
      assert done + Feed(titles) == next + Feed(tail);
      TitlesFromWrapped(done, t, Feed(tail));
      assert forall i :: 0 <= i < |tail| ==> Plain(tail[i]) by {
        forall i | 0 <= i < |tail|
          ensures Plain(tail[i])
        {
          assert tail[i] == titles[i + 1];
        }
      }
      FeedRoundTripFrom(tail, next);
      assert titles == [t] + tail;
    }
  }

  // ----- get_google_trending_terms -----

  /** The RSS request: it raised, or it answered with a status and a body text. */
  datatype RssReply = RssError | RssResponse(status: int, text: string)

  /** The terms: the stripped titles after the feed's own, or none unless the reply is a 200 with a body. */
  function GoogleTerms(reply: RssReply): (terms: seq<string>)
    ensures !(reply.RssResponse? && reply.status == 200 && reply.text != "") ==> terms == []
    ensures reply.RssResponse? && reply.status == 200 && reply.text != "" ==>
              var titles := FindTitles(reply.text);
              && |terms| == (if titles == [] then 0 else |titles| - 1)
              && forall i :: 0 <= i < |terms| ==> terms[i] == Trim(titles[i + 1])
  {
    if reply.RssResponse? && reply.status == 200 && reply.text != "" then
      var titles := FindTitles(reply.text);
      var rest := if titles == [] then [] else titles[1..];
      seq(|rest|, i requires 0 <= i < |rest| => Trim(rest[i]))
    else []
  }

  /** From a feed of plain titles, the terms are all titles but the feed's, stripped, in order. */
  lemma TermsOfFeed(feedTitle: string, items: seq<string>)
    requires Plain(feedTitle) && forall i :: 0 <= i < |items| ==> Plain(items[i])
    ensures var terms := GoogleTerms(RssResponse(200, Feed([feedTitle] + items)));
            |terms| == |items| && forall i :: 0 <= i < |items| ==> terms[i] == Trim(items[i])
  {
    var all := [feedTitle] + items;
    FeedRoundTrip(all);
    assert Feed(all) != "";
  }
}
