/**
 * The page loop of the Atsogo crawler, independent of how a container is read. The
 * adapter inside the aggregators checks its page cap before fetching and reads
 * `?page=N` until a fetch fails or a page has no listings. The standalone scraper checks
 * its cap after reading a page and also stops when the page has no "Next" link. A crawl
 * is described by the pages it reads; what it returns is every container of those
 * pages, read in order.
 */
module Paging {
  import opened Options
  import opened Documents

  /** Python truthiness of `max_pages`: `None` and `0` switch the cap off. */
  predicate CapActive(cap: Option<int>) {
    cap.Some? && cap.value != 0
  }

  function Max(a: int, b: int): int {
    if a < b then b else a
  }

  /** A page that was read: its URL and its `property_item` containers. */
  datatype Page = Page(url: string, items: seq<Element>)

  datatype Stop = CapReached | FetchFailed | NoListings | NoNextLink

  /** How a crawl ends: an exception escapes (and its results are lost), or it returns. */
  datatype Crawl<T> = Raised | Done(items: seq<T>, lastPage: nat, stop: Stop)

  function Prepend<T>(items: seq<T>, c: Crawl<T>): Crawl<T> {
    match c
    case Raised => Raised
    case Done(rest, last, stop) => Done(items + rest, last, stop)
  }

  lemma PrependTwice<T>(a: seq<T>, b: seq<T>, c: Crawl<T>)
    ensures Prepend(a, Prepend(b, c)) == Prepend(a + b, c)
  {
    if c.Done? {
      assert a + (b + c.items) == (a + b) + c.items;
    }
  }

  predicate HasListings(web: Web, url: string) {
    web.fetch(url).Parsed? && web.fetch(url).doc.select(PropertyItems) != []
  }

  /** The pages from `first` on were read in order, one per page number, each with listings. */
  predicate ReadInOrder(web: Web, pageUrl: nat -> string, first: nat, pages: seq<Page>) {
    forall k :: 0 <= k < |pages| ==>
      pages[k].url == pageUrl(first + k) && HasListings(web, pages[k].url)
      && pages[k].items == web.fetch(pages[k].url).doc.select(PropertyItems)
  }

  /** The adapter's loop does not go past page `p`: the cap is passed there, or the page has no listings. */
  predicate InlineHaltsAt(web: Web, pageUrl: nat -> string, cap: Option<int>, p: nat) {
    (CapActive(cap) && p > cap.value) || !HasListings(web, pageUrl(p))
  }

  /**
   * Some page from `page` to `bound` stops the adapter's loop. Its `while True` returns
   * exactly when there is such a page for some `bound` (`InlineStopsAtGap`), and never
   * otherwise (`InlineEndlessSite`).
   */
  ghost predicate InlineEndsBy(web: Web, pageUrl: nat -> string, cap: Option<int>, page: nat, bound: nat) {
    exists q: nat :: page <= q <= bound && InlineHaltsAt(web, pageUrl, cap, q)
  }

  // ---------------------------------------------------------------------------
  // Reading the containers of the pages

  /** The containers of one page, each read together with the page's URL, in order. */
  function PageItems<T>(read: (string, Element) -> T, pg: Page): (xs: seq<T>)
    ensures |xs| == |pg.items|
  {
    seq(|pg.items|, i requires 0 <= i < |pg.items| => read(pg.url, pg.items[i]))
  }

  lemma PageItemsSnoc<T>(read: (string, Element) -> T, url: string, items: seq<Element>, i: nat)
    requires i < |items|
    ensures PageItems(read, Page(url, items[..i + 1])) == PageItems(read, Page(url, items[..i])) + [read(url, items[i])]
  {
  }

  /** The containers of all the pages read, page by page. */
  function Gathered<T>(read: (string, Element) -> T, pages: seq<Page>): seq<T> {
    if pages == [] then []
    else Gathered(read, pages[..|pages| - 1]) + PageItems(read, pages[|pages| - 1])
  }

  function TotalItems(pages: seq<Page>): nat {
    if pages == [] then 0 else TotalItems(pages[..|pages| - 1]) + |pages[|pages| - 1].items|
  }

  /**
   * Nothing is dropped or invented: one value per container of every page read, and
   * every value is some container of some page read, together with that page's URL.
   */
  lemma {:induction false} GatheredExactly<T>(read: (string, Element) -> T, pages: seq<Page>)
    ensures |Gathered(read, pages)| == TotalItems(pages)
    ensures forall k, i :: 0 <= k < |pages| && 0 <= i < |pages[k].items| ==>
      read(pages[k].url, pages[k].items[i]) in Gathered(read, pages)
    ensures forall x :: x in Gathered(read, pages) ==>
      exists k, i :: 0 <= k < |pages| && 0 <= i < |pages[k].items| && x == read(pages[k].url, pages[k].items[i])
  {
    if pages != [] {
      var init := pages[..|pages| - 1];
      var last := pages[|pages| - 1];
      GatheredExactly(read, init);
      var g := Gathered(read, pages);
      assert g == Gathered(read, init) + PageItems(read, last);
      forall k, i | 0 <= k < |pages| && 0 <= i < |pages[k].items|
        ensures read(pages[k].url, pages[k].items[i]) in g
      {
        if k < |pages| - 1 {
          assert pages[k] == init[k];
        } else {
          assert PageItems(read, last)[i] == read(pages[k].url, pages[k].items[i]);
        }
      }
      forall x | x in g
        ensures exists k, i :: 0 <= k < |pages| && 0 <= i < |pages[k].items| && x == read(pages[k].url, pages[k].items[i])
      {
        if x in Gathered(read, init) {
          var k, i :| 0 <= k < |init| && 0 <= i < |init[k].items| && x == read(init[k].url, init[k].items[i]);
          assert pages[k] == init[k];
        } else {
          var i :| 0 <= i < |last.items| && PageItems(read, last)[i] == x;
          assert pages[|pages| - 1] == last;
        }
      }
    }
  }

  lemma GatheredOfNextPage<T>(read: (string, Element) -> T, pages: seq<Page>, pg: Page)
    ensures Gathered(read, pages + [pg]) == Gathered(read, pages) + PageItems(read, pg)
  {
    assert (pages + [pg])[..|pages|] == pages;
  }

  /** What a crawl returns: the containers of every page it read, or nothing when it raised. */
  function Gather<T>(read: (string, Element) -> T, c: Crawl<Page>): (r: Crawl<T>)
    ensures r.Done? <==> c.Done?
    ensures r.Done? ==> r.lastPage == c.lastPage && r.stop == c.stop
  {
    match c
    case Raised => Raised
    case Done(pages, last, stop) => Done(Gathered(read, pages), last, stop)
  }

  lemma GatherOfPrefix<T>(read: (string, Element) -> T, pages: seq<Page>, last: nat, stop: Stop)
    ensures Gather(read, Prepend(pages, Done([], last, stop))) == Done(Gathered(read, pages), last, stop)
  {
    assert pages + [] == pages;
  }

  lemma GatherOfLastPage<T>(read: (string, Element) -> T, pages: seq<Page>, pg: Page, last: nat, stop: Stop)
    ensures Gather(read, Prepend(pages, Done([pg], last, stop)))
      == Done(Gathered(read, pages) + PageItems(read, pg), last, stop)
  {
    PrependTwice(pages, [pg], Done([], last, stop));
    GatherOfPrefix(read, pages + [pg], last, stop);
    GatheredOfNextPage(read, pages, pg);
  }

  /** The per-container loop of the standalone scraper: the values of one page, in order. */
  method ReadPage<T>(read: (string, Element) -> T, url: string, items: seq<Element>) returns (values: seq<T>)
    ensures values == PageItems(read, Page(url, items))
  {
    values := [];
    for i := 0 to |items|
      invariant values == PageItems(read, Page(url, items[..i]))
    {
      values := values + [read(url, items[i])];
      PageItemsSnoc(read, url, items, i);
    }
    assert items[..|items|] == items;
  }

  /** The per-container loop of the aggregators' adapter: each value appended to the result as it is read. */
  method AppendPage<T>(read: (string, Element) -> T, acc: seq<T>, url: string, items: seq<Element>)
    returns (extended: seq<T>)
    ensures extended == acc + PageItems(read, Page(url, items))
  {
    extended := acc;
    for i := 0 to |items|
      invariant extended == acc + PageItems(read, Page(url, items[..i]))
    {
      extended := extended + [read(url, items[i])];
      PageItemsSnoc(read, url, items, i);
    }
    assert items[..|items|] == items;
  }

  // ---------------------------------------------------------------------------
  // The adapter of the aggregators: cap check, fetch, containers, next page

  lemma InlineGoesOn(web: Web, pageUrl: nat -> string, cap: Option<int>, page: nat, bound: nat)
    requires InlineEndsBy(web, pageUrl, cap, page, bound) && !InlineHaltsAt(web, pageUrl, cap, page)
    ensures page < bound && InlineEndsBy(web, pageUrl, cap, page + 1, bound)
  {
    var q: nat :| page <= q <= bound && InlineHaltsAt(web, pageUrl, cap, q);
    assert q != page;
  }

  /** Why the inline crawl stopped, stated about the page after the last one it read. */
  predicate InlineStoppedAt(web: Web, pageUrl: nat -> string, cap: Option<int>, page: nat, stop: Stop) {
    match stop
    case CapReached => CapActive(cap) && page > cap.value
    case FetchFailed => !(CapActive(cap) && page > cap.value) && web.fetch(pageUrl(page)).Failed?
    case NoListings =>
      !(CapActive(cap) && page > cap.value) && web.fetch(pageUrl(page)).Parsed? && !HasListings(web, pageUrl(page))
    case NoNextLink => false
  }

  /** The pages the adapter of the aggregators reads, from page `page` on. */
  function InlineCrawl(web: Web, pageUrl: nat -> string, cap: Option<int>, page: nat, bound: nat): (c: Crawl<Page>)
    requires page >= 1 && InlineEndsBy(web, pageUrl, cap, page, bound)
    ensures c.Done? ==> page - 1 <= c.lastPage
    decreases if page <= bound then bound + 1 - page else 0
  {
    if CapActive(cap) && page > cap.value then Done([], page - 1, CapReached)
    else
      var here := pageUrl(page);
      match web.fetch(here)
      case Failed => Done([], page - 1, FetchFailed)
      case Rejected => Raised
      case Parsed(doc) =>
        var items := doc.select(PropertyItems);
        if items == [] then Done([], page - 1, NoListings)
        else
          InlineGoesOn(web, pageUrl, cap, page, bound);
          Prepend([Page(here, items)], InlineCrawl(web, pageUrl, cap, page + 1, bound))
  }

  /**
   * A finished inline crawl read exactly the pages from `page` to its last one, in
   * order, each with listings.
   */
  lemma {:induction false} InlineCrawlReads(web: Web, pageUrl: nat -> string, cap: Option<int>, page: nat, bound: nat)
    requires page >= 1 && InlineEndsBy(web, pageUrl, cap, page, bound)
    ensures var c := InlineCrawl(web, pageUrl, cap, page, bound);
      c.Done? ==> (|c.items| == c.lastPage + 1 - page && ReadInOrder(web, pageUrl, page, c.items))
    decreases if page <= bound then bound + 1 - page else 0
  {
    var c := InlineCrawl(web, pageUrl, cap, page, bound);
    var here := pageUrl(page);
    if !(CapActive(cap) && page > cap.value) && HasListings(web, here) {
      InlineGoesOn(web, pageUrl, cap, page, bound);
      InlineCrawlReads(web, pageUrl, cap, page + 1, bound);
      var rest := InlineCrawl(web, pageUrl, cap, page + 1, bound);
      var pg := Page(here, web.fetch(here).doc.select(PropertyItems));
      assert c == Prepend([pg], rest);
      if rest.Done? {
        forall k | 0 <= k < |c.items|
          ensures c.items[k].url == pageUrl(page + k) && HasListings(web, c.items[k].url)
          ensures c.items[k].items == web.fetch(c.items[k].url).doc.select(PropertyItems)
        {
          if k > 0 {
            assert c.items[k] == rest.items[k - 1];
          }
        }
      }
    }
  }

  /** A finished inline crawl stopped for the reason it gives, at the page after its last one. */
  lemma {:induction false} InlineCrawlStops(web: Web, pageUrl: nat -> string, cap: Option<int>, page: nat, bound: nat)
    requires page >= 1 && InlineEndsBy(web, pageUrl, cap, page, bound)
    ensures var c := InlineCrawl(web, pageUrl, cap, page, bound);
      c.Done? ==> InlineStoppedAt(web, pageUrl, cap, c.lastPage + 1, c.stop)
    decreases if page <= bound then bound + 1 - page else 0
  {
    var here := pageUrl(page);
    if !(CapActive(cap) && page > cap.value) && HasListings(web, here) {
      InlineGoesOn(web, pageUrl, cap, page, bound);
      InlineCrawlStops(web, pageUrl, cap, page + 1, bound);
    }
  }

  /**
   * An active cap bounds the last page the inline crawl reads, and every page it
   * fetches unless it stopped for the cap; without a cap it never stops for the cap.
   */
  lemma {:induction false} InlineCapBound(web: Web, pageUrl: nat -> string, cap: Option<int>, page: nat, bound: nat)
    requires page >= 1 && InlineEndsBy(web, pageUrl, cap, page, bound)
    ensures var c := InlineCrawl(web, pageUrl, cap, page, bound);
      c.Done? ==> ((CapActive(cap) ==> c.lastPage <= Max(cap.value, page - 1))
        && (CapActive(cap) && c.stop != CapReached ==> c.lastPage + 1 <= cap.value)
        && (!CapActive(cap) ==> c.stop != CapReached))
    decreases if page <= bound then bound + 1 - page else 0
  {
    var here := pageUrl(page);
    if !(CapActive(cap) && page > cap.value) && HasListings(web, here) {
      InlineGoesOn(web, pageUrl, cap, page, bound);
      InlineCapBound(web, pageUrl, cap, page + 1, bound);
    }
  }

  /**
   * What the adapter returns comes from the pages it read: each value is some container
   * of a page with listings, read with that page's URL, and no page past the cap.
   */
  lemma InlineGathered<T>(read: (string, Element) -> T, web: Web, pageUrl: nat -> string, cap: Option<int>, bound: nat)
    requires InlineEndsBy(web, pageUrl, cap, 1, bound)
    ensures var c := InlineCrawl(web, pageUrl, cap, 1, bound);
      c.Done? ==> forall x :: x in Gathered(read, c.items) ==>
        exists p, e :: (1 <= p <= c.lastPage && HasListings(web, pageUrl(p)) && (CapActive(cap) ==> p <= cap.value)
          && e in web.fetch(pageUrl(p)).doc.select(PropertyItems) && x == read(pageUrl(p), e))
  {
    InlineCrawlReads(web, pageUrl, cap, 1, bound);
    InlineCapBound(web, pageUrl, cap, 1, bound);
    var c := InlineCrawl(web, pageUrl, cap, 1, bound);
    if c.Done? {
      GatheredExactly(read, c.items);
      forall x | x in Gathered(read, c.items)
        ensures exists p, e :: (1 <= p <= c.lastPage && HasListings(web, pageUrl(p)) && (CapActive(cap) ==> p <= cap.value)
          && e in web.fetch(pageUrl(p)).doc.select(PropertyItems) && x == read(pageUrl(p), e))
      {
        var k, i :| 0 <= k < |c.items| && 0 <= i < |c.items[k].items| && x == read(c.items[k].url, c.items[k].items[i]);
        assert c.items[k].items[i] in web.fetch(pageUrl(1 + k)).doc.select(PropertyItems);
      }
    }
  }

  /**
   * One turn of the inline loop, given that the pages before `page` were read: what
   * the whole crawl returns when this page ends it, or that it goes on.
   */
  lemma InlineTurn<T>(read: (string, Element) -> T, web: Web, pageUrl: nat -> string, cap: Option<int>,
                      page: nat, bound: nat, pages: seq<Page>)
    requires page >= 1 && InlineEndsBy(web, pageUrl, cap, page, bound)
    requires InlineCrawl(web, pageUrl, cap, 1, bound) == Prepend(pages, InlineCrawl(web, pageUrl, cap, page, bound))
    ensures var whole := Gather(read, InlineCrawl(web, pageUrl, cap, 1, bound));
      var content := web.fetch(pageUrl(page));
      var capped := CapActive(cap) && page > cap.value;
      (capped ==> whole == Done(Gathered(read, pages), page - 1, CapReached))
      && (!capped && content.Failed? ==> whole == Done(Gathered(read, pages), page - 1, FetchFailed))
      && (!capped && content.Rejected? ==> whole == Raised)
      && (!capped && content.Parsed? && content.doc.select(PropertyItems) == [] ==>
        whole == Done(Gathered(read, pages), page - 1, NoListings))
      && (!capped && HasListings(web, pageUrl(page)) ==>
        var pg := Page(pageUrl(page), content.doc.select(PropertyItems));
        InlineEndsBy(web, pageUrl, cap, page + 1, bound)
        && InlineCrawl(web, pageUrl, cap, 1, bound) == Prepend(pages + [pg], InlineCrawl(web, pageUrl, cap, page + 1, bound))
        && Gathered(read, pages + [pg]) == Gathered(read, pages) + PageItems(read, pg))
  {
    var here := pageUrl(page);
    if CapActive(cap) && page > cap.value {
      GatherOfPrefix(read, pages, page - 1, CapReached);
    } else {
      match web.fetch(here)
      case Failed => GatherOfPrefix(read, pages, page - 1, FetchFailed);
      case Rejected =>
      case Parsed(doc) =>
        var pg := Page(here, doc.select(PropertyItems));
        if pg.items == [] {
          GatherOfPrefix(read, pages, page - 1, NoListings);
        } else {
          InlineGoesOn(web, pageUrl, cap, page, bound);
          PrependTwice(pages, [pg], InlineCrawl(web, pageUrl, cap, page + 1, bound));
          GatheredOfNextPage(read, pages, pg);
        }
    }
  }

  /** The page loop of the aggregators' adapter: cap check, fetch, containers, read every one. */
  method CrawlInline<T>(web: Web, pageUrl: nat -> string, read: (string, Element) -> T, cap: Option<int>, ghost bound: nat)
    returns (c: Crawl<T>)
    requires InlineEndsBy(web, pageUrl, cap, 1, bound)
    ensures c == Gather(read, InlineCrawl(web, pageUrl, cap, 1, bound))
  {
    var properties: seq<T> := [];
    ghost var pages: seq<Page> := [];
    var page: nat := 1;
    while true
      invariant page >= 1 && InlineEndsBy(web, pageUrl, cap, page, bound)
      invariant InlineCrawl(web, pageUrl, cap, 1, bound) == Prepend(pages, InlineCrawl(web, pageUrl, cap, page, bound))
      invariant properties == Gathered(read, pages)
      decreases if page <= bound then bound + 1 - page else 0
    {
      InlineTurn(read, web, pageUrl, cap, page, bound, pages);
      if CapActive(cap) && page > cap.value {
        return Done(properties, page - 1, CapReached);
      }
      var url := pageUrl(page);
      var content := web.fetch(url);
      if content.Failed? {
        return Done(properties, page - 1, FetchFailed);
      }
      if content.Rejected? {
        return Raised;
      }
      var items := content.doc.select(PropertyItems);
      if items == [] {
        return Done(properties, page - 1, NoListings);
      }
      properties := AppendPage(read, properties, url, items);
      pages := pages + [Page(url, items)];
      page := page + 1;
    }
  }

  /**
   * A page that stops the adapter's loop bounds it: the crawl ends before that page,
   * whatever the pages after it hold.
   */
  lemma InlineStopsAtGap(web: Web, pageUrl: nat -> string, cap: Option<int>, q: nat)
    requires q >= 1 && InlineHaltsAt(web, pageUrl, cap, q)
    ensures InlineEndsBy(web, pageUrl, cap, 1, q)
    ensures var c := InlineCrawl(web, pageUrl, cap, 1, q); c.Done? ==> c.lastPage < q
  {
    assert InlineEndsBy(web, pageUrl, cap, 1, q);
    InlineCrawlReads(web, pageUrl, cap, 1, q);
    InlineCapBound(web, pageUrl, cap, 1, q);
    var c := InlineCrawl(web, pageUrl, cap, 1, q);
    if c.Done? {
      forall p: nat | 1 <= p <= c.lastPage
        ensures HasListings(web, pageUrl(p))
      {
        assert c.items[p - 1].url == pageUrl(p);
      }
    }
  }

  /**
   * Without a cap, a site that has listings on every page has no page that stops the
   * adapter's loop: it reads page after page and never returns.
   */
  lemma InlineEndlessSite(web: Web, pageUrl: nat -> string, cap: Option<int>, bound: nat)
    requires !CapActive(cap) && forall p: nat :: p >= 1 ==> HasListings(web, pageUrl(p))
    ensures forall p: nat :: p >= 1 ==> !InlineHaltsAt(web, pageUrl, cap, p)
    ensures !InlineEndsBy(web, pageUrl, cap, 1, bound)
  {
  }

  // ---------------------------------------------------------------------------
  // The standalone scraper: fetch, containers, read them, then the cap and "Next" checks

  /** The standalone loop does not go past page `p`: no listings there, the cap, or no "Next" link. */
  predicate StandaloneHaltsAt(web: Web, pageUrl: nat -> string, cap: Option<int>, p: nat) {
    !HasListings(web, pageUrl(p)) || (CapActive(cap) && p >= cap.value) || !web.fetch(pageUrl(p)).doc.hasNextLink
  }

  /**
   * Some page from `page` to `bound` stops the standalone loop. Its `while True`
   * returns exactly when there is such a page for some `bound`.
   */
  ghost predicate StandaloneEndsBy(web: Web, pageUrl: nat -> string, cap: Option<int>, page: nat, bound: nat) {
    exists q: nat :: page <= q <= bound && StandaloneHaltsAt(web, pageUrl, cap, q)
  }

  lemma StandaloneGoesOn(web: Web, pageUrl: nat -> string, cap: Option<int>, page: nat, bound: nat)
    requires StandaloneEndsBy(web, pageUrl, cap, page, bound) && !StandaloneHaltsAt(web, pageUrl, cap, page)
    ensures page < bound && StandaloneEndsBy(web, pageUrl, cap, page + 1, bound)
  {
    var q: nat :| page <= q <= bound && StandaloneHaltsAt(web, pageUrl, cap, q);
    assert q != page;
  }

  /**
   * A page with listings and no "Next" link ends the standalone loop there, whatever
   * the pages after it hold.
   */
  lemma StandaloneStopsWithoutNext(web: Web, pageUrl: nat -> string, cap: Option<int>, page: nat)
    requires page >= 1 && HasListings(web, pageUrl(page)) && !web.fetch(pageUrl(page)).doc.hasNextLink
    ensures StandaloneEndsBy(web, pageUrl, cap, page, page)
    ensures var c := StandaloneCrawl(web, pageUrl, cap, page, page);
      c.Done? && c.lastPage == page && |c.items| == 1 && (c.stop == CapReached || c.stop == NoNextLink)
  {
    assert StandaloneHaltsAt(web, pageUrl, cap, page);
  }

  /** Why the standalone crawl stopped, stated about its last page (read or attempted). */
  predicate StandaloneStopped(web: Web, pageUrl: nat -> string, cap: Option<int>, last: nat, stop: Stop) {
    match stop
    case CapReached => CapActive(cap) && last >= cap.value
    case FetchFailed => web.fetch(pageUrl(last + 1)).Failed?
    case NoListings => web.fetch(pageUrl(last + 1)).Parsed? && !HasListings(web, pageUrl(last + 1))
    case NoNextLink => web.fetch(pageUrl(last)).Parsed? && !web.fetch(pageUrl(last)).doc.hasNextLink
  }

  /** The pages the standalone scraper reads, from page `page` on. */
  function StandaloneCrawl(web: Web, pageUrl: nat -> string, cap: Option<int>, page: nat, bound: nat): (c: Crawl<Page>)
    requires page >= 1 && StandaloneEndsBy(web, pageUrl, cap, page, bound)
    ensures c.Done? ==> page - 1 <= c.lastPage
    decreases if page <= bound then bound + 1 - page else 0
  {
    var here := pageUrl(page);
    match web.fetch(here)
    case Failed => Done([], page - 1, FetchFailed)
    case Rejected => Raised
    case Parsed(doc) =>
      var items := doc.select(PropertyItems);
      if items == [] then Done([], page - 1, NoListings)
      else if CapActive(cap) && page >= cap.value then Done([Page(here, items)], page, CapReached)
      else if !doc.hasNextLink then Done([Page(here, items)], page, NoNextLink)
      else
        StandaloneGoesOn(web, pageUrl, cap, page, bound);
        Prepend([Page(here, items)], StandaloneCrawl(web, pageUrl, cap, page + 1, bound))
  }

  /**
   * A finished standalone crawl read exactly the pages from `page` to its last one, in
   * order, each with listings.
   */
  lemma {:induction false} StandaloneCrawlReads(web: Web, pageUrl: nat -> string, cap: Option<int>, page: nat, bound: nat)
    requires page >= 1 && StandaloneEndsBy(web, pageUrl, cap, page, bound)
    ensures var c := StandaloneCrawl(web, pageUrl, cap, page, bound);
      c.Done? ==> (|c.items| == c.lastPage + 1 - page && ReadInOrder(web, pageUrl, page, c.items))
    decreases if page <= bound then bound + 1 - page else 0
  {
    var c := StandaloneCrawl(web, pageUrl, cap, page, bound);
    var here := pageUrl(page);
    if !StandaloneHaltsAt(web, pageUrl, cap, page) {
      StandaloneGoesOn(web, pageUrl, cap, page, bound);
      StandaloneCrawlReads(web, pageUrl, cap, page + 1, bound);
      var rest := StandaloneCrawl(web, pageUrl, cap, page + 1, bound);
      var pg := Page(here, web.fetch(here).doc.select(PropertyItems));
      assert c == Prepend([pg], rest);
      if rest.Done? {
        forall k | 0 <= k < |c.items|
          ensures c.items[k].url == pageUrl(page + k) && HasListings(web, c.items[k].url)
          ensures c.items[k].items == web.fetch(c.items[k].url).doc.select(PropertyItems)
        {
          if k > 0 {
            assert c.items[k] == rest.items[k - 1];
          }
        }
      }
    }
  }

  /** A finished standalone crawl stopped for the reason it gives, at its last page. */
  lemma {:induction false} StandaloneCrawlStops(web: Web, pageUrl: nat -> string, cap: Option<int>, page: nat, bound: nat)
    requires page >= 1 && StandaloneEndsBy(web, pageUrl, cap, page, bound)
    ensures var c := StandaloneCrawl(web, pageUrl, cap, page, bound);
      c.Done? ==> StandaloneStopped(web, pageUrl, cap, c.lastPage, c.stop)
    decreases if page <= bound then bound + 1 - page else 0
  {
    var here := pageUrl(page);
    if !StandaloneHaltsAt(web, pageUrl, cap, page) {
      StandaloneGoesOn(web, pageUrl, cap, page, bound);
      StandaloneCrawlStops(web, pageUrl, cap, page + 1, bound);
    }
  }

  /**
   * The standalone cap is checked after a page is read, so an active cap bounds the
   * last page by the cap or the first page, whichever is larger.
   */
  lemma {:induction false} StandaloneCapBound(web: Web, pageUrl: nat -> string, cap: Option<int>, page: nat, bound: nat)
    requires page >= 1 && StandaloneEndsBy(web, pageUrl, cap, page, bound)
    ensures var c := StandaloneCrawl(web, pageUrl, cap, page, bound);
      c.Done? ==> ((CapActive(cap) ==> c.lastPage <= Max(cap.value, page))
        && (CapActive(cap) && c.stop != CapReached ==> c.lastPage < Max(cap.value, page))
        && (!CapActive(cap) ==> c.stop != CapReached))
    decreases if page <= bound then bound + 1 - page else 0
  {
    var here := pageUrl(page);
    if !StandaloneHaltsAt(web, pageUrl, cap, page) {
      StandaloneGoesOn(web, pageUrl, cap, page, bound);
      StandaloneCapBound(web, pageUrl, cap, page + 1, bound);
    }
  }

  /**
   * The two forms read the same pages until one of them stops: with no cap, a crawl
   * of the standalone scraper that ran out of pages read the same pages as the adapter.
   */
  lemma {:induction false} SameListingPages(web: Web, pageUrl: nat -> string, page: nat, bound: nat)
    requires page >= 1 && StandaloneEndsBy(web, pageUrl, None, page, bound)
    requires var s := StandaloneCrawl(web, pageUrl, None, page, bound); s.Done? && s.stop != NoNextLink
    ensures InlineEndsBy(web, pageUrl, None, page, bound)
    ensures InlineCrawl(web, pageUrl, None, page, bound) == StandaloneCrawl(web, pageUrl, None, page, bound)
    decreases if page <= bound then bound + 1 - page else 0
  {
    var here := pageUrl(page);
    if HasListings(web, here) {
      StandaloneGoesOn(web, pageUrl, None, page, bound);
      SameListingPages(web, pageUrl, page + 1, bound);
      var q: nat :| page + 1 <= q <= bound && InlineHaltsAt(web, pageUrl, None, q);
      assert InlineEndsBy(web, pageUrl, None, page, bound);
      InlineGoesOn(web, pageUrl, None, page, bound);
    } else {
      var q: nat :| page <= q <= bound && StandaloneHaltsAt(web, pageUrl, None, q);
      assert InlineHaltsAt(web, pageUrl, None, page);
    }
  }

  /**
   * What the standalone scraper returns comes from the pages it read: each value is
   * some container of a page with listings, read with that page's URL; an active cap
   * bounds the page by the cap, or by page 1 when the cap is below it.
   */
  lemma StandaloneGathered<T>(read: (string, Element) -> T, web: Web, pageUrl: nat -> string, cap: Option<int>, bound: nat)
    requires StandaloneEndsBy(web, pageUrl, cap, 1, bound)
    ensures var c := StandaloneCrawl(web, pageUrl, cap, 1, bound);
      c.Done? ==> forall x :: x in Gathered(read, c.items) ==>
        exists p, e :: (1 <= p <= c.lastPage && HasListings(web, pageUrl(p)) && (CapActive(cap) ==> p <= Max(cap.value, 1))
          && e in web.fetch(pageUrl(p)).doc.select(PropertyItems) && x == read(pageUrl(p), e))
  {
    StandaloneCrawlReads(web, pageUrl, cap, 1, bound);
    StandaloneCapBound(web, pageUrl, cap, 1, bound);
    var c := StandaloneCrawl(web, pageUrl, cap, 1, bound);
    if c.Done? {
      GatheredExactly(read, c.items);
      forall x | x in Gathered(read, c.items)
        ensures exists p, e :: (1 <= p <= c.lastPage && HasListings(web, pageUrl(p)) && (CapActive(cap) ==> p <= Max(cap.value, 1))
          && e in web.fetch(pageUrl(p)).doc.select(PropertyItems) && x == read(pageUrl(p), e))
      {
        var k, i :| 0 <= k < |c.items| && 0 <= i < |c.items[k].items| && x == read(c.items[k].url, c.items[k].items[i]);
        assert c.items[k].items[i] in web.fetch(pageUrl(1 + k)).doc.select(PropertyItems);
      }
    }
  }

  /**
   * One turn of the standalone loop, given that the pages before `page` were read:
   * what the whole crawl returns when this page ends it, or that it goes on.
   */
  lemma StandaloneTurn<T>(read: (string, Element) -> T, web: Web, pageUrl: nat -> string, cap: Option<int>,
                          page: nat, bound: nat, pages: seq<Page>)
    requires page >= 1 && StandaloneEndsBy(web, pageUrl, cap, page, bound)
    requires StandaloneCrawl(web, pageUrl, cap, 1, bound) == Prepend(pages, StandaloneCrawl(web, pageUrl, cap, page, bound))
    ensures var whole := Gather(read, StandaloneCrawl(web, pageUrl, cap, 1, bound));
      var content := web.fetch(pageUrl(page));
      (content.Failed? ==> whole == Done(Gathered(read, pages), page - 1, FetchFailed))
      && (content.Rejected? ==> whole == Raised)
      && (content.Parsed? && content.doc.select(PropertyItems) == [] ==>
        whole == Done(Gathered(read, pages), page - 1, NoListings))
  {
    var here := pageUrl(page);
    match web.fetch(here)
    case Failed => GatherOfPrefix(read, pages, page - 1, FetchFailed);
    case Rejected =>
    case Parsed(doc) =>
      if doc.select(PropertyItems) == [] {
        GatherOfPrefix(read, pages, page - 1, NoListings);
      }
  }

  /** A turn of the standalone loop on a page with listings: it stops at the cap or without "Next", or goes on. */
  lemma StandaloneTurnRead<T>(read: (string, Element) -> T, web: Web, pageUrl: nat -> string, cap: Option<int>,
                              page: nat, bound: nat, pages: seq<Page>)
    requires page >= 1 && StandaloneEndsBy(web, pageUrl, cap, page, bound) && HasListings(web, pageUrl(page))
    requires StandaloneCrawl(web, pageUrl, cap, 1, bound) == Prepend(pages, StandaloneCrawl(web, pageUrl, cap, page, bound))
    ensures var whole := Gather(read, StandaloneCrawl(web, pageUrl, cap, 1, bound));
      var doc := web.fetch(pageUrl(page)).doc;
      var pg := Page(pageUrl(page), doc.select(PropertyItems));
      (CapActive(cap) && page >= cap.value ==>
        whole == Done(Gathered(read, pages) + PageItems(read, pg), page, CapReached))
      && (!(CapActive(cap) && page >= cap.value) && !doc.hasNextLink ==>
        whole == Done(Gathered(read, pages) + PageItems(read, pg), page, NoNextLink))
      && (!(CapActive(cap) && page >= cap.value) && doc.hasNextLink ==>
        StandaloneEndsBy(web, pageUrl, cap, page + 1, bound)
        && StandaloneCrawl(web, pageUrl, cap, 1, bound) == Prepend(pages + [pg], StandaloneCrawl(web, pageUrl, cap, page + 1, bound))
        && Gathered(read, pages + [pg]) == Gathered(read, pages) + PageItems(read, pg))
  {
    var doc := web.fetch(pageUrl(page)).doc;
    var pg := Page(pageUrl(page), doc.select(PropertyItems));
    if CapActive(cap) && page >= cap.value {
      GatherOfLastPage(read, pages, pg, page, CapReached);
    } else if !doc.hasNextLink {
      GatherOfLastPage(read, pages, pg, page, NoNextLink);
    } else {
      StandaloneGoesOn(web, pageUrl, cap, page, bound);
      PrependTwice(pages, [pg], StandaloneCrawl(web, pageUrl, cap, page + 1, bound));
      GatheredOfNextPage(read, pages, pg);
    }
  }

  /** The page loop of the standalone scraper: fetch, containers, read them all, then stop or go on. */
  method CrawlStandalone<T>(web: Web, pageUrl: nat -> string, read: (string, Element) -> T, cap: Option<int>, ghost bound: nat)
    returns (c: Crawl<T>)
    requires StandaloneEndsBy(web, pageUrl, cap, 1, bound)
    ensures c == Gather(read, StandaloneCrawl(web, pageUrl, cap, 1, bound))
  {
    var allProperties: seq<T> := [];
    ghost var pages: seq<Page> := [];
    var page: nat := 1;
    while true
      invariant page >= 1 && StandaloneEndsBy(web, pageUrl, cap, page, bound)
      invariant StandaloneCrawl(web, pageUrl, cap, 1, bound) == Prepend(pages, StandaloneCrawl(web, pageUrl, cap, page, bound))
      invariant allProperties == Gathered(read, pages)
      decreases if page <= bound then bound + 1 - page else 0
    {
      var url := pageUrl(page);
      var content := web.fetch(url);
      StandaloneTurn(read, web, pageUrl, cap, page, bound, pages);
      if content.Failed? {
        return Done(allProperties, page - 1, FetchFailed);
      }
      if content.Rejected? {
        return Raised;
      }
      var items := content.doc.select(PropertyItems);
      if items == [] {
        return Done(allProperties, page - 1, NoListings);
      }
      var pageProperties := ReadPage(read, url, items);
      StandaloneTurnRead(read, web, pageUrl, cap, page, bound, pages);
      if CapActive(cap) && page >= cap.value {
        return Done(allProperties + pageProperties, page, CapReached);
      }
      if !content.doc.hasNextLink {
        return Done(allProperties + pageProperties, page, NoNextLink);
      }
      allProperties := allProperties + pageProperties;
      pages := pages + [Page(url, items)];
      page := page + 1;
    }
  }
}
