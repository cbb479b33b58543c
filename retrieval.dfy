/**
 * The retrieval loop of GetSteamReviews.py:87-116. The review server is
 * modelled as the finite sequence of pages it delivers, one per request
 * in the order the requests are made; `quote` stands for
 * `urllib.parse.quote`, whose encoding is not modelled.
 */
module Retrieval {
  import opened Query

  /** One element of a page's `reviews`, with the fields the script reads. */
  datatype Review = Review(
    playtimeAtReview: int,      // author.playtime_at_review, in minutes
    language: string,
    review: string,
    timestampCreated: int,      // seconds since the epoch
    votedUp: bool,
    weightedVoteScore: real)

  /** One response: `query_summary.num_reviews`, `reviews` and `cursor`. */
  datatype Page = Page(numReviews: nat, reviews: seq<Review>, cursor: string)

  /**
   * How the loop ended: `Finished` when the script itself stops, or
   * `OutOfPages` when the modelled server has no response left for the next
   * request (the script would go on asking).
   */
  datatype Status = Finished | OutOfPages

  /** `raw_review_list`, every URL that was queried, the final `number_of_reviews` and how the run ended. */
  datatype Retrieval = Retrieval(reviews: seq<Review>, queried: seq<string>, numberOfReviews: nat, status: Status)

  /** The index of the first page reporting `num_reviews == 0`, or the number of pages if there is none. */
  function StopIndex(pages: seq<Page>): (k: nat)
    ensures k <= |pages|
    ensures k < |pages| ==> pages[k].numReviews == 0
  {
    StopFrom(pages, 0)
  }

  /** The first page from index `i` on that reports `num_reviews == 0`. */
  function StopFrom(pages: seq<Page>, i: nat): (k: nat)
    requires i <= |pages|
    ensures i <= k <= |pages|
    ensures k < |pages| ==> pages[k].numReviews == 0
    decreases |pages| - i
  {
    if i == |pages| then i
    else if pages[i].numReviews == 0 then i
    else StopFrom(pages, i + 1)
  }

  /** Every page before the stopping page reports some reviews. */
  lemma BeforeStop(pages: seq<Page>, j: nat)
    requires j < StopIndex(pages)
    ensures pages[j].numReviews != 0
  {
    BeforeStopFrom(pages, 0, j);
  }

  lemma {:induction false} BeforeStopFrom(pages: seq<Page>, i: nat, j: nat)
    requires i <= j < |pages| && j < StopFrom(pages, i)
    ensures pages[j].numReviews != 0
    decreases j - i
  {
    if i < j {
      BeforeStopFrom(pages, i + 1, j);
    }
  }

  /** The reviews of the pages one after another, in delivery order. */
  function Concat(pages: seq<Page>): seq<Review> {
    if pages == [] then [] else Concat(pages[..|pages| - 1]) + pages[|pages| - 1].reviews
  }

  /** The sum of the pages' `num_reviews`. */
  function SumCounts(pages: seq<Page>): nat {
    if pages == [] then 0 else SumCounts(pages[..|pages| - 1]) + pages[|pages| - 1].numReviews
  }

  /** The cursor parameter of request k: the initial one, then page k-1's cursor. */
  function CursorFor(pages: seq<Page>, k: nat, quote: string -> string): string
    requires k <= |pages|
  {
    if k == 0 then InitialCursor else NextCursor(quote, pages[k - 1].cursor)
  }

  /** The first n requests of cursor mode: request k is the base URL followed by the cursor for page k. */
  function Requests(url: string, pages: seq<Page>, n: nat, quote: string -> string): (rs: seq<string>)
    requires n <= |pages|
    ensures |rs| == n
  {
    seq(n, k requires 0 <= k < n => url + CursorFor(pages, k, quote))
  }

  /** The number of requests cursor mode makes: up to and including the stopping page, or every page if none stops it. */
  function Fetched(pages: seq<Page>): (n: nat)
    ensures n <= |pages|
  {
    if StopIndex(pages) < |pages| then StopIndex(pages) + 1 else |pages|
  }

  /** GetSteamReviews.py:91-107 on a server that delivers `pages`. */
  function CursorModeResult(url: string, pages: seq<Page>, quote: string -> string): Retrieval {
    Retrieval(Concat(pages[..StopIndex(pages)]),
              Requests(url, pages, Fetched(pages), quote),
              SumCounts(pages[..Fetched(pages)]),
              if StopIndex(pages) < |pages| then Finished else OutOfPages)
  }

  /** GetSteamReviews.py:108-116: a single request with the initial cursor. */
  function BoundedResult(url: string, pages: seq<Page>): Retrieval {
    if pages == [] then Retrieval([], [], 0, OutOfPages)
    else Retrieval(pages[0].reviews, [url + InitialCursor], pages[0].numReviews, Finished)
  }

  /** What a run of the retrieval section produces when the server answers with `pages`. */
  function Expected(url: string, filter: Filter, pages: seq<Page>, quote: string -> string): Retrieval {
    if filter.FollowsCursor() then CursorModeResult(url, pages, quote) else BoundedResult(url, pages)
  }

  /** One more fetched page extends the accumulated reviews, the total and the requests by that page. */
  lemma FetchStep(url: string, pages: seq<Page>, i: nat, quote: string -> string)
    requires i < |pages| && i <= StopIndex(pages)
    ensures pages[i].numReviews == 0 ==> i == StopIndex(pages)
    ensures pages[i].numReviews != 0 ==> i < StopIndex(pages)
    ensures Concat(pages[..i + 1]) == Concat(pages[..i]) + pages[i].reviews
    ensures SumCounts(pages[..i + 1]) == SumCounts(pages[..i]) + pages[i].numReviews
    ensures Requests(url, pages, i + 1, quote) == Requests(url, pages, i, quote) + [url + CursorFor(pages, i, quote)]
  {
    if i < StopIndex(pages) {
      BeforeStop(pages, i);
    }
    assert pages[..i + 1][..i] == pages[..i];
  }

  /** GetSteamReviews.py:104-105 and 115-116: `for item in ...: raw_review_list.append(item)`. */
  method AppendAll(acc: seq<Review>, items: seq<Review>) returns (r: seq<Review>)
    ensures r == acc + items
  {
    r := acc;
    for i := 0 to |items|
      invariant r == acc + items[..i]
    {
      r := r + [items[i]];
    }
    assert items[..|items|] == items;
  }

  /**
   * GetSteamReviews.py:70-116: the URL is built from the options, and the
   * same options' filter chooses between following cursors and a single
   * request. In bounded mode that one request carries
   * the initial cursor and its page's reviews are the result, whatever the
   * page reports as `num_reviews`.
   */
  method Retrieve(c: Config, pages: seq<Page>, quote: string -> string) returns (r: Retrieval)
    ensures r == Expected(RequestUrl(c), c.filter, pages, quote)
    ensures !c.filter.FollowsCursor() && pages != [] ==>
      r.queried == [RequestUrl(c) + "&cursor=*"] && r.reviews == pages[0].reviews && r.status == Finished
  {
    var url := RequestUrl(c);
    if c.filter.Name() == "recent" || c.filter.Name() == "updated" {
      r := FollowCursors(url, pages, quote);
    } else {
      r := FetchOnce(url, pages);
    }
  }

  /** GetSteamReviews.py:91-107: request pages, following cursors, until one reports zero reviews. */
  method FollowCursors(url: string, pages: seq<Page>, quote: string -> string) returns (r: Retrieval)
    ensures r == CursorModeResult(url, pages, quote)
  {
    var cursor := InitialCursor;
    var rawReviewList: seq<Review> := [];
    var queried: seq<string> := [];
    var more := true;
    var numberOfReviews: nat := 0;
    var i := 0;
    while more && i < |pages|
      invariant 0 <= i <= |pages|
      invariant more ==> i <= StopIndex(pages)
      invariant more ==> cursor == CursorFor(pages, i, quote)
      invariant more ==> rawReviewList == Concat(pages[..i])
      invariant !more ==> StopIndex(pages) < |pages| && i == StopIndex(pages) + 1
      invariant !more ==> rawReviewList == Concat(pages[..StopIndex(pages)])
      invariant numberOfReviews == SumCounts(pages[..i])
      invariant queried == Requests(url, pages, i, quote)
      decreases |pages| - i
    {
      FetchStep(url, pages, i, quote);
      queried := queried + [url + cursor];
      var data := pages[i];
      numberOfReviews := numberOfReviews + data.numReviews;
      if data.numReviews == 0 {
        more := false;
      } else {
        rawReviewList := AppendAll(rawReviewList, data.reviews);
        cursor := NextCursor(quote, data.cursor);
      }
      i := i + 1;
    }
    r := Retrieval(rawReviewList, queried, numberOfReviews, if more then OutOfPages else Finished);
  }

  /** GetSteamReviews.py:108-116: one request with the initial cursor; its page's reviews are kept. */
  method FetchOnce(url: string, pages: seq<Page>) returns (r: Retrieval)
    ensures r == BoundedResult(url, pages)
  {
    if pages == [] {
      return Retrieval([], [], 0, OutOfPages);
    }
    var cursor := InitialCursor;
    var queried := [url + cursor];
    var data := pages[0];
    var numberOfReviews := data.numReviews;
    var rawReviewList := AppendAll([], data.reviews);
    r := Retrieval(rawReviewList, queried, numberOfReviews, Finished);
  }

  /**
   * GetSteamReviews.py:87 and 106-107: in cursor mode the first request
   * carries `&cursor=*` and every later one the quoted cursor of the page
   * before it.
   */
  lemma RequestChain(url: string, filter: Filter, pages: seq<Page>, quote: string -> string)
    requires filter.FollowsCursor()
    ensures pages != [] ==> |Expected(url, filter, pages, quote).queried| > 0
    ensures pages != [] ==> Expected(url, filter, pages, quote).queried[0] == url + "&cursor=*"
    ensures forall k :: 0 <= k < |Expected(url, filter, pages, quote).queried| - 1 ==>
      k < |pages| && Expected(url, filter, pages, quote).queried[k + 1] == url + "&cursor=" + quote(pages[k].cursor)
  {
    var n := Fetched(pages);
    assert Expected(url, filter, pages, quote).queried == Requests(url, pages, n, quote);
    assert pages != [] ==> n > 0;
    RequestsChained(url, pages, n, quote);
  }

  lemma RequestsChained(url: string, pages: seq<Page>, n: nat, quote: string -> string)
    requires n <= |pages|
    ensures n > 0 ==> Requests(url, pages, n, quote)[0] == url + "&cursor=*"
    ensures forall k :: 0 <= k < n - 1 ==> Requests(url, pages, n, quote)[k + 1] == url + "&cursor=" + quote(pages[k].cursor)
  {
    var rs := Requests(url, pages, n, quote);
    forall k | 0 <= k < n - 1 ensures rs[k + 1] == url + "&cursor=" + quote(pages[k].cursor) {
      assert rs[k + 1] == url + CursorFor(pages, k + 1, quote);
    }
  }

  /** The total number of reviews on the pages. */
  function SumLengths(pages: seq<Page>): nat {
    if pages == [] then 0 else SumLengths(pages[..|pages| - 1]) + |pages[|pages| - 1].reviews|
  }

  /**
   * Concatenation loses, adds and moves nothing: it is as long as all pages
   * together, and review j of page k sits right after the reviews of the
   * pages before page k.
   */
  lemma {:induction false} ConcatAt(pages: seq<Page>, k: nat, j: nat)
    requires k < |pages| && j < |pages[k].reviews|
    ensures |Concat(pages)| == SumLengths(pages)
    ensures |Concat(pages[..k])| + j < |Concat(pages)|
    ensures Concat(pages)[|Concat(pages[..k])| + j] == pages[k].reviews[j]
  {
    var init := pages[..|pages| - 1];
    ConcatLength(init);
    if k < |pages| - 1 {
      assert init[..k] == pages[..k];
      ConcatAt(init, k, j);
    } else {
      assert init == pages[..k];
    }
  }

  lemma {:induction false} ConcatLength(pages: seq<Page>)
    ensures |Concat(pages)| == SumLengths(pages)
  {
    if pages != [] {
      ConcatLength(pages[..|pages| - 1]);
    }
  }

  /**
   * GetSteamReviews.py:94-107, cursor mode: the result holds exactly the
   * reviews of the pages before the first page with `num_reviews == 0`,
   * each page's reviews in the order received and the pages in delivery
   * order; nothing is dropped, repeated or reordered.
   */
  lemma CursorModeOrder(url: string, filter: Filter, pages: seq<Page>, quote: string -> string, k: nat, j: nat)
    requires filter.FollowsCursor()
    requires k < StopIndex(pages) && j < |pages[k].reviews|
    ensures |Expected(url, filter, pages, quote).reviews| == SumLengths(pages[..StopIndex(pages)])
    ensures |Concat(pages[..k])| + j < |Expected(url, filter, pages, quote).reviews|
    ensures Expected(url, filter, pages, quote).reviews[|Concat(pages[..k])| + j] == pages[k].reviews[j]
  {
    PrefixAt(pages, StopIndex(pages), k, j);
  }

  lemma PrefixAt(pages: seq<Page>, n: nat, k: nat, j: nat)
    requires k < n <= |pages| && j < |pages[k].reviews|
    ensures |Concat(pages[..n])| == SumLengths(pages[..n])
    ensures |Concat(pages[..k])| + j < |Concat(pages[..n])|
    ensures Concat(pages[..n])[|Concat(pages[..k])| + j] == pages[k].reviews[j]
  {
    var prefix := pages[..n];
    assert prefix[..k] == pages[..k] && prefix[k] == pages[k];
    ConcatAt(prefix, k, j);
  }

  /** Cursor mode stops at its first page reporting zero reviews, and only then. */
  lemma CursorModeStopsOnlyAtZero(url: string, filter: Filter, pages: seq<Page>, quote: string -> string)
    requires filter.FollowsCursor()
    ensures Expected(url, filter, pages, quote).status == Finished
        <==> exists k :: 0 <= k < |pages| && pages[k].numReviews == 0
    ensures Expected(url, filter, pages, quote).status == Finished ==>
      var r := Expected(url, filter, pages, quote);
      |r.queried| == StopIndex(pages) + 1 && r.reviews == Concat(pages[..StopIndex(pages)])
  {
    var n := StopIndex(pages);
    if n < |pages| {
      assert pages[n].numReviews == 0;
    } else {
      forall k | 0 <= k < |pages| ensures pages[k].numReviews != 0 {
        BeforeStop(pages, k);
      }
    }
  }

  /**
   * GetSteamReviews.py:101-102: no request follows the page that reports
   * zero reviews, so whatever the server would have answered afterwards
   * cannot change the result.
   */
  lemma UnreadPagesIgnored(url: string, filter: Filter, pages: seq<Page>, rest: seq<Page>, quote: string -> string)
    requires StopIndex(pages) < |pages|
    ensures Expected(url, filter, pages[..StopIndex(pages) + 1] + rest, quote) == Expected(url, filter, pages, quote)
  {
    var n := StopIndex(pages);
    var other := pages[..n + 1] + rest;
    assert other[..n + 1] == pages[..n + 1];
    SamePrefixSameResult(url, pages, other, quote);
    assert other[0] == pages[0];
  }

  lemma SamePrefixSameResult(url: string, pages: seq<Page>, other: seq<Page>, quote: string -> string)
    requires StopIndex(pages) < |pages|
    requires |other| > StopIndex(pages) && other[..StopIndex(pages) + 1] == pages[..StopIndex(pages) + 1]
    ensures CursorModeResult(url, other, quote) == CursorModeResult(url, pages, quote)
  {
    var n := StopIndex(pages);
    StopIndexPrefix(pages, other);
    PrefixOfPrefix(pages, other, n, n + 1);
    RequestsAgree(url, pages, other, n + 1, quote);
    FinishedResult(url, pages, n, quote);
    FinishedResult(url, other, n, quote);
    assert Concat(other[..n]) == Concat(pages[..n]);
    assert SumCounts(other[..n + 1]) == SumCounts(pages[..n + 1]);
  }

  /** The cursor-mode result when page `n` is the stopping page. */
  lemma FinishedResult(url: string, pages: seq<Page>, n: nat, quote: string -> string)
    requires n == StopIndex(pages) < |pages|
    ensures CursorModeResult(url, pages, quote)
         == Retrieval(Concat(pages[..n]), Requests(url, pages, n + 1, quote), SumCounts(pages[..n + 1]), Finished)
  {
  }

  lemma PrefixOfPrefix<T>(a: seq<T>, b: seq<T>, m: nat, n: nat)
    requires m <= n <= |a| && n <= |b| && a[..n] == b[..n]
    ensures a[..m] == b[..m]
  {
    assert a[..m] == a[..n][..m];
    assert b[..m] == b[..n][..m];
  }

  /** Requests are built from the cursors of the pages before them only. */
  lemma RequestsAgree(url: string, pages: seq<Page>, other: seq<Page>, n: nat, quote: string -> string)
    requires 0 < n <= |pages| && n <= |other| && pages[..n - 1] == other[..n - 1]
    ensures Requests(url, pages, n, quote) == Requests(url, other, n, quote)
  {
    var a := Requests(url, pages, n, quote);
    var b := Requests(url, other, n, quote);
    forall i | 0 <= i < n ensures a[i] == b[i] {
      if i > 0 {
        assert pages[..n - 1][i - 1] == other[..n - 1][i - 1];
      }
    }
  }

  /** Pages that agree up to and including the stopping page stop at the same index. */
  lemma StopIndexPrefix(pages: seq<Page>, other: seq<Page>)
    requires StopIndex(pages) < |pages|
    requires |other| > StopIndex(pages) && other[..StopIndex(pages) + 1] == pages[..StopIndex(pages) + 1]
    ensures StopIndex(other) == StopIndex(pages)
  {
    var n := StopIndex(pages);
    assert forall j :: 0 <= j <= n ==> other[j] == pages[..n + 1][j];
    StopFromPrefix(pages, other, n, 0);
  }

  lemma {:induction false} StopFromPrefix(pages: seq<Page>, other: seq<Page>, n: nat, i: nat)
    requires i <= n < |pages| && n < |other| && StopFrom(pages, i) == n
    requires forall j :: i <= j <= n ==> other[j] == pages[j]
    ensures StopFrom(other, i) == n
    decreases n - i
  {
    if i < n {
      assert other[i] == pages[i];
      StopFromPrefix(pages, other, n, i + 1);
    }
  }

  /**
   * GetSteamReviews.py:93-98: `number_of_reviews` adds up every fetched
   * page's `num_reviews`. The closing zero page adds nothing, and each page
   * before it reported at least one review.
   */
  lemma CursorModeRunningTotal(url: string, filter: Filter, pages: seq<Page>, quote: string -> string)
    requires filter.FollowsCursor()
    ensures Expected(url, filter, pages, quote).numberOfReviews == SumCounts(pages[..StopIndex(pages)])
    ensures Expected(url, filter, pages, quote).numberOfReviews >= StopIndex(pages)
  {
    var n := StopIndex(pages);
    if n < |pages| {
      assert pages[..n + 1][..n] == pages[..n];
    } else {
      assert pages[..n] == pages;
    }
    forall j | 0 <= j < n ensures pages[..n][j].numReviews != 0 {
      BeforeStop(pages, j);
    }
    SumCountsAtLeast(pages[..n]);
  }

  lemma {:induction false} SumCountsAtLeast(pages: seq<Page>)
    requires forall j :: 0 <= j < |pages| ==> pages[j].numReviews != 0
    ensures SumCounts(pages) >= |pages|
  {
    if pages != [] {
      var init := pages[..|pages| - 1];
      assert forall j :: 0 <= j < |init| ==> init[j] == pages[j];
      SumCountsAtLeast(init);
    }
  }

  /**
   * There is no guard against a cursor that stops advancing: while every
   * page reports reviews, the loop keeps requesting, even when the server
   * hands back the same cursor every time, and keeps every page's reviews.
   */
  lemma NonAdvancingCursorIsFollowed(url: string, filter: Filter, pages: seq<Page>, quote: string -> string, c: string)
    requires filter.FollowsCursor()
    requires forall j :: 0 <= j < |pages| ==> pages[j].numReviews != 0 && pages[j].cursor == c
    ensures Expected(url, filter, pages, quote).status == OutOfPages
    ensures |Expected(url, filter, pages, quote).queried| == |pages|
    ensures forall k :: 1 <= k < |pages| ==> Expected(url, filter, pages, quote).queried[k] == url + "&cursor=" + quote(c)
    ensures Expected(url, filter, pages, quote).reviews == Concat(pages)
  {
    var n := |pages|;
    assert StopIndex(pages) == n;
    assert pages[..n] == pages;
    var queried := Requests(url, pages, n, quote);
    assert Expected(url, filter, pages, quote) == Retrieval(Concat(pages), queried, SumCounts(pages), OutOfPages);
    forall k | 1 <= k < n ensures queried[k] == url + "&cursor=" + quote(c) {
      assert queried[k] == url + CursorFor(pages, k, quote);
    }
  }
}
