/**
 * The Atsogo crawler in its two forms: the adapter inside the aggregators and the
 * standalone scraper. They walk the same `?page=N` URLs with the page loop of `Paging`
 * and read each `property_item` container with their own field extractors.
 */
module Atsogo {
  import opened Options
  import opened Text
  import opened Patterns
  import opened Documents
  import opened Records
  import opened Extractors
  import opened Paging

  const AtsogoBase: string := "https://atsogo.mw/listings/properties"

  /** The URL of page `page`: the bare listing URL for page 1, `?page=N` after it. */
  function PageUrl(base: string, page: nat): string {
    if page <= 1 then base else base + "?page=" + Decimal(page)
  }

  /** The URL of Atsogo's page `page`. */
  function AtsogoPage(page: nat): string {
    PageUrl(AtsogoBase, page)
  }

  /** Different pages are fetched from different URLs. */
  lemma PageUrlInjective(base: string, p: nat, q: nat)
    requires 1 <= p && 1 <= q && PageUrl(base, p) == PageUrl(base, q)
    ensures p == q
  {
    if p > 1 && q > 1 {
      var u := PageUrl(base, p);
      assert Decimal(p) == u[|base| + 6..];
      assert Decimal(q) == u[|base| + 6..];
      DecimalInjective(p, q);
    }
  }

  // ---------------------------------------------------------------------------
  // One listing

  /** The `(\d+)\s+(\d+)\s+Bathroom` pair, or two empty fields when it is absent. */
  function Rooms(text: string): (r: (string, string))
    ensures EmptyOrDigits(r.0) && EmptyOrDigits(r.1)
    ensures r.0 == "" <==> r.1 == ""
    ensures r.0 == "" <==> forall i :: PairAt(text, i).None?
  {
    match CombinedBedBath(text)
    case None => ("", "")
    case Some(pair) => pair
  }

  /** When the rule matches, the two fields are the counts of its leftmost match. */
  lemma RoomsAtLeftmost(text: string, i: nat)
    requires PairAt(text, i).Some? && forall j :: 0 <= j < i ==> PairAt(text, j).None?
    ensures Rooms(text) == (Group(text, PairAt(text, i).value.0), Group(text, PairAt(text, i).value.1))
  {
    CombinedBedBathAtLeftmost(text, i);
  }

  /** The listing the aggregators' Atsogo adapter reads from one `property_item` container. */
  function InlineListing(e: Element): (l: Listing)
    ensures Normalised(l)
    ensures l.bedrooms == "" <==> l.bathrooms == ""
    ensures l.transactionType != "" ==> l.propertyType != ""
    ensures l.location != "" ==> l.location in NonBlankLines(e.text)
  {
    var category := Categorize(NonBlankLines(e.text));
    var rooms := Rooms(e.text);
    UpperTownsAreWords();
    var location := AtsogoLocation(e.text, UpperTowns);
    var price := ExtractPrice(e.text);
    var date := DatePosted(e.text);
    var area := ExtractArea(e.text);
    Listing(
      title := HeadingTitle(e, {3}),
      propertyType := category.0,
      transactionType := category.1,
      location := location,
      price := price,
      areaSqm := area,
      bedrooms := rooms.0,
      bathrooms := rooms.1,
      datePosted := date,
      description := "")
  }

  /** The h3 title as the standalone scraper reads it: text nodes stripped and joined. */
  function StrippedTitle(e: Element): (r: string)
    ensures Trimmed(r)
    ensures FindHeading(e, {3}).None? ==> r == ""
    ensures FindHeading(e, {3}).Some? ==> Visible(r) == Visible(GetText(FindHeading(e, {3}).value))
  {
    match FindHeading(e, {3})
    case None => ""
    case Some(h) => GetTextStripped(h)
  }

  /** extract_property_data of the standalone scraper. */
  function StandaloneListing(e: Element): (l: Listing)
    ensures Normalised(l)
    ensures l.bedrooms == "" <==> l.bathrooms == ""
    ensures l.transactionType != "" ==> l.propertyType != ""
    ensures l.location != "" ==> l.location in NonBlankLines(e.text)
  {
    var category := Categorize(NonBlankLines(e.text));
    var rooms := Rooms(e.text);
    UpperTownsAreWords();
    var location := AtsogoLocation(e.text, UpperTownsRepeated);
    var price := MkPrice(e.text);
    var date := DatePosted(e.text);
    var area := SqmArea(e.text);
    Listing(
      title := StrippedTitle(e),
      propertyType := category.0,
      transactionType := category.1,
      location := location,
      price := price,
      areaSqm := area,
      bedrooms := rooms.0,
      bathrooms := rooms.1,
      datePosted := date,
      description := "")
  }

  /**
   * The two Atsogo readers agree on every field but price and area (the standalone
   * one knows only `MK` and `sqm`, case-sensitively), and their titles differ only
   * in blanks.
   */
  lemma ReadersAgree(e: Element)
    ensures var a := InlineListing(e); var b := StandaloneListing(e);
      a.propertyType == b.propertyType && a.transactionType == b.transactionType
      && a.location == b.location && a.bedrooms == b.bedrooms && a.bathrooms == b.bathrooms
      && a.datePosted == b.datePosted && Visible(a.title) == Visible(b.title)
  {
    RepeatedTownIgnored(e.text);
    UpperTownsAreWords();
    assert AtsogoLocation(e.text, UpperTowns) == AtsogoLocation(e.text, UpperTownsRepeated);
  }

  // ---------------------------------------------------------------------------
  // Both crawlers on Atsogo's pages

  /** The record the aggregators' adapter appends for one container on the page at `url`. */
  function AtsogoRecord(url: string, e: Element): (r: Record)
    ensures r.source == "atsogo" && r.url == url && Normalised(r.listing)
  {
    Record("atsogo", InlineListing(e), url)
  }

  /** The standalone scraper reads a container without its page's URL. */
  function StandaloneItem(url: string, e: Element): (l: Listing)
    ensures Normalised(l)
  {
    StandaloneListing(e)
  }

  /**
   * Every record of the aggregators' Atsogo adapter is the normalised listing of a
   * container of a page the crawl read, tagged with that page's URL, within the cap.
   */
  lemma AtsogoRecordsFromReadPages(web: Web, cap: Option<int>, bound: nat)
    requires InlineEndsBy(web, AtsogoPage, cap, 1, bound)
    ensures var c := InlineCrawl(web, AtsogoPage, cap, 1, bound);
      c.Done? ==> forall r :: r in Gathered(AtsogoRecord, c.items) ==>
        r.source == "atsogo" && Normalised(r.listing)
        && exists p, e :: (1 <= p <= c.lastPage && (CapActive(cap) ==> p <= cap.value) && HasListings(web, AtsogoPage(p))
          && e in web.fetch(AtsogoPage(p)).doc.select(PropertyItems)
          && r.url == AtsogoPage(p) && r.listing == InlineListing(e))
  {
    InlineGathered(AtsogoRecord, web, AtsogoPage, cap, bound);
  }

  /** Every listing of the standalone scraper is the normalised listing of a container of a page it read. */
  lemma StandaloneListingsFromReadPages(web: Web, cap: Option<int>, bound: nat)
    requires StandaloneEndsBy(web, AtsogoPage, cap, 1, bound)
    ensures var c := StandaloneCrawl(web, AtsogoPage, cap, 1, bound);
      c.Done? ==> forall l :: l in Gathered(StandaloneItem, c.items) ==>
        Normalised(l)
        && exists p, e :: (1 <= p <= c.lastPage && (CapActive(cap) ==> p <= Max(cap.value, 1)) && HasListings(web, AtsogoPage(p))
          && e in web.fetch(AtsogoPage(p)).doc.select(PropertyItems) && l == StandaloneListing(e))
  {
    StandaloneGathered(StandaloneItem, web, AtsogoPage, cap, bound);
  }

  /** scrape_atsogo of the aggregators. */
  method ScrapeAtsogo(web: Web, cap: Option<int>, ghost bound: nat) returns (c: Crawl<Record>)
    requires InlineEndsBy(web, AtsogoPage, cap, 1, bound)
    ensures c == Gather(AtsogoRecord, InlineCrawl(web, AtsogoPage, cap, 1, bound))
  {
    c := CrawlInline(web, AtsogoPage, AtsogoRecord, cap, bound);
  }

  /** scrape_properties of the standalone scraper. */
  method ScrapeProperties(web: Web, cap: Option<int>, ghost bound: nat) returns (c: Crawl<Listing>)
    requires StandaloneEndsBy(web, AtsogoPage, cap, 1, bound)
    ensures c == Gather(StandaloneItem, StandaloneCrawl(web, AtsogoPage, cap, 1, bound))
  {
    c := CrawlStandalone(web, AtsogoPage, StandaloneItem, cap, bound);
  }
}
