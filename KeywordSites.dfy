/**
 * The generic single-page adapters (SGW, Knight Frank, Nyumba24, Reynolds and
 * 4321property in the six-site aggregator; SGW and Nyumba24 in the three-site one).
 * They differ only in the profile below: which URLs they try, how they find listing
 * containers, which heading levels give the title, and which keyword classifiers run.
 */
module KeywordSites {
  import opened Options
  import opened Text
  import opened Patterns
  import opened Documents
  import opened Records
  import opened Extractors
  import opened Discovery

  /** How an adapter finds listing containers. */
  datatype ElementSource =
    | SelectorCascade(selectors: seq<string>)  // the CSS cascade with its fallback scan
    | ClassQuery(pattern: string)              // one find_all on a class-name pattern

  datatype TransactionRule = NoTransaction | RentOrLet | RentOnly

  datatype Site = Site(
    source: string,
    urls: seq<string>,
    recordUrl: string,
    headingLevels: set<nat>,
    elements: ElementSource,
    transactions: TransactionRule,
    classifiesType: bool)

  const MalawiSgw: Site := Site(
    "sgw", ["https://sgw.mw", "https://sgw.mw/properties", "https://sgw.mw/listings"], "https://sgw.mw",
    {1, 2, 3, 4}, SelectorCascade(ListingSelectors), RentOrLet, true)

  const KnightFrank: Site := Site(
    "knightfrank", ["https://www.knightfrank.mw"], "https://www.knightfrank.mw",
    {1, 2, 3, 4, 5}, SelectorCascade(ListingSelectors), NoTransaction, false)

  const Nyumba24: Site := Site(
    "nyumba24", ["https://www.nyumba24.com"], "https://www.nyumba24.com",
    {1, 2, 3, 4, 5, 6}, ClassQuery("property|listing|item|card"), RentOnly, false)

  const Reynolds: Site := Site(
    "reynolds", ["https://reynolds.mw"], "https://reynolds.mw",
    {1, 2, 3, 4, 5}, SelectorCascade(ListingSelectors), NoTransaction, false)

  const Property4321: Site := Site(
    "4321property", ["https://www.4321property.com/malawi"], "https://www.4321property.com/malawi",
    {1, 2, 3, 4, 5}, SelectorCascade(ListingSelectors), NoTransaction, false)

  /** The SGW adapter of the three-site aggregator: one URL and a class-name query. */
  const MultiSgw: Site := Site(
    "sgw", ["https://sgw.mw"], "https://sgw.mw",
    {1, 2, 3, 4}, ClassQuery("property|listing|item"), RentOrLet, true)

  function Transaction(rule: TransactionRule, text: string): string {
    match rule
    case NoTransaction => ""
    case RentOrLet => KeywordTransaction(text, true)
    case RentOnly => KeywordTransaction(text, false)
  }

  /** The listing a generic adapter reads from one container. */
  function KeywordListing(site: Site, e: Element): (l: Listing)
    ensures Normalised(l) && l.datePosted == ""
    ensures site.transactions == NoTransaction ==> l.transactionType == ""
    ensures !site.classifiesType ==> l.propertyType == ""
    ensures ',' !in l.location && '\n' !in l.location
  {
    var rooms := BedroomsBathrooms(e.text);
    Listing(
      title := HeadingTitle(e, site.headingLevels),
      propertyType := if site.classifiesType then KeywordPropertyType(e.text) else "",
      transactionType := Transaction(site.transactions, e.text),
      location := KeywordLocation(e.text),
      price := ExtractPrice(e.text),
      areaSqm := ExtractArea(e.text),
      bedrooms := rooms.0,
      bathrooms := rooms.1,
      datePosted := "",
      description := "")
  }

  /** The results `f` gives over `xs`, in order, with the absent ones dropped. */
  function Filtered<X, Y>(f: X -> Option<Y>, xs: seq<X>): (ys: seq<Y>)
    ensures |ys| <= |xs|
  {
    if xs == [] then []
    else
      var last := xs[|xs| - 1];
      Filtered(f, xs[..|xs| - 1]) + (if f(last).Some? then [f(last).value] else [])
  }

  /** Filtering one more element adds its result when it has one, and nothing else. */
  lemma FilteredStep<X, Y>(f: X -> Option<Y>, xs: seq<X>, i: nat)
    requires i < |xs|
    ensures Filtered(f, xs[..i + 1]) == Filtered(f, xs[..i]) + (if f(xs[i]).Some? then [f(xs[i]).value] else [])
  {
    assert xs[..i + 1][..i] == xs[..i];
  }

  /** Every present result is kept, and every kept value is the result of some element. */
  lemma {:induction false} FilteredExactly<X, Y>(f: X -> Option<Y>, xs: seq<X>)
    ensures forall x :: x in xs && f(x).Some? ==> f(x).value in Filtered(f, xs)
    ensures forall y :: y in Filtered(f, xs) ==> exists x :: x in xs && f(x) == Some(y)
  {
    if xs != [] {
      var init := xs[..|xs| - 1];
      FilteredExactly(f, init);
      assert xs == init + [xs[|xs| - 1]];
    }
  }

  /** The record a generic adapter keeps for one container: only a listing with a title or a price. */
  function KeptRecord(site: Site): Element -> Option<Record> {
    e => var l := KeywordListing(site, e);
      if Kept(l) then Some(Record(site.source, l, site.recordUrl)) else None
  }

  /** The records kept from a page's containers, in order: those with a title or a price. */
  function KeywordRecords(site: Site, elements: seq<Element>): (rs: seq<Record>)
    ensures |rs| <= |elements|
    ensures forall r :: r in rs ==> r.source == site.source && r.url == site.recordUrl
    ensures forall r :: r in rs ==> Kept(r.listing) && Normalised(r.listing)
  {
    var rs := Filtered(KeptRecord(site), elements);
    FilteredExactly(KeptRecord(site), elements);
    forall r | r in rs
      ensures r.source == site.source && r.url == site.recordUrl && Kept(r.listing) && Normalised(r.listing)
    {
      var e :| e in elements && KeptRecord(site)(e) == Some(r);
      assert r.listing == KeywordListing(site, e);
    }
    rs
  }

  /**
   * Exactly the listings with a title or a price are kept: every container whose
   * listing passes the filter has its record in the result, and every record comes
   * from some container.
   */
  lemma KeptExactly(site: Site, elements: seq<Element>)
    ensures forall e :: e in elements && Kept(KeywordListing(site, e)) ==>
      Record(site.source, KeywordListing(site, e), site.recordUrl) in KeywordRecords(site, elements)
    ensures forall r :: r in KeywordRecords(site, elements) ==>
      exists e :: e in elements && r.listing == KeywordListing(site, e)
  {
    FilteredExactly(KeptRecord(site), elements);
  }

  /** The containers an adapter extracts from a parsed page. */
  function SiteElements(site: Site, doc: Document): seq<Element> {
    match site.elements
    case SelectorCascade(selectors) => Discover(doc, selectors)
    case ClassQuery(pattern) => doc.select(ClassMatches(pattern))
  }

  /** What the first URL that gives a usable body gives, if any does. */
  function FirstFetched(web: Web, urls: seq<string>): (r: Option<Fetch>)
    ensures r.Some? ==> !r.value.Failed? && exists k :: 0 <= k < |urls| && web.fetch(urls[k]) == r.value
    ensures r.None? <==> forall k :: 0 <= k < |urls| ==> web.fetch(urls[k]).Failed?
  {
    if urls == [] then None
    else if !web.fetch(urls[0]).Failed? then Some(web.fetch(urls[0]))
    else
      var r := FirstFetched(web, urls[1..]);
      assert forall k :: 1 <= k < |urls| ==> urls[k] == urls[1..][k - 1];
      r
  }

  /**
   * A whole run of a generic adapter: nothing when no URL gives a body or the parser
   * raises (the adapter's outer handler swallows it), otherwise the kept records.
   */
  function ScrapeSite(site: Site, web: Web): (rs: seq<Record>)
    ensures forall r :: r in rs ==> r.source == site.source && r.url == site.recordUrl && Kept(r.listing)
  {
    match FirstFetched(web, site.urls)
    case Some(Parsed(doc)) => KeywordRecords(site, SiteElements(site, doc))
    case _ => []
  }

  /** A later URL is used only when every earlier one gave no usable body. */
  lemma LaterUrlUsedAfterFailures(site: Site, web: Web, k: nat, doc: Document)
    requires k < |site.urls| && web.fetch(site.urls[k]) == Parsed(doc)
    requires forall j :: 0 <= j < k ==> web.fetch(site.urls[j]).Failed?
    ensures ScrapeSite(site, web) == KeywordRecords(site, SiteElements(site, doc))
  {
    FirstFetchedAt(web, site.urls, k);
  }

  lemma {:induction false} FirstFetchedAt(web: Web, urls: seq<string>, k: nat)
    requires k < |urls| && !web.fetch(urls[k]).Failed?
    requires forall j :: 0 <= j < k ==> web.fetch(urls[j]).Failed?
    ensures FirstFetched(web, urls) == Some(web.fetch(urls[k]))
    decreases k
  {
    if k > 0 {
      FirstFetchedAt(web, urls[1..], k - 1);
    }
  }

  /** A page the parser rejects yields no records, even when a later URL would have worked. */
  lemma RejectedPageYieldsNothing(site: Site, web: Web, k: nat)
    requires k < |site.urls| && web.fetch(site.urls[k]).Rejected?
    requires forall j :: 0 <= j < k ==> web.fetch(site.urls[j]).Failed?
    ensures ScrapeSite(site, web) == []
  {
    FirstFetchedAt(web, site.urls, k);
  }

  /** When no URL gives a usable body, the site contributes nothing. */
  lemma AllUrlsFailedYieldsNothing(site: Site, web: Web)
    requires forall k :: 0 <= k < |site.urls| ==> web.fetch(site.urls[k]).Failed?
    ensures ScrapeSite(site, web) == []
  {
  }

  /** The URL loop: the first URL whose fetch gives a usable body. */
  method FetchFirst(web: Web, urls: seq<string>) returns (content: Option<Fetch>)
    ensures content == FirstFetched(web, urls)
  {
    content := None;
    for k := 0 to |urls|
      invariant content.None?
      invariant forall j :: 0 <= j < k ==> web.fetch(urls[j]).Failed?
    {
      var fetched := web.fetch(urls[k]);
      if !fetched.Failed? {
        content := Some(fetched);
        FirstFetchedAt(web, urls, k);
        break;
      }
    }
  }

  /** The body of the per-container loop: the fields of one listing. */
  method ReadListing(site: Site, e: Element) returns (listing: Listing)
    ensures listing == KeywordListing(site, e)
  {
    var bedrooms, bathrooms := ExtractBedroomsBathrooms(e.text);
    listing := Listing(
      title := HeadingTitle(e, site.headingLevels),
      propertyType := if site.classifiesType then KeywordPropertyType(e.text) else "",
      transactionType := Transaction(site.transactions, e.text),
      location := KeywordLocation(e.text),
      price := ExtractPrice(e.text),
      areaSqm := ExtractArea(e.text),
      bedrooms := bedrooms,
      bathrooms := bathrooms,
      datePosted := "",
      description := "");
  }

  /** One generic adapter, as written: fetch, find the containers, extract and filter. */
  method ScrapeKeywordSite(site: Site, web: Web) returns (properties: seq<Record>)
    ensures properties == ScrapeSite(site, web)
  {
    properties := [];
    var content := FetchFirst(web, site.urls);
    if content.None? || content.value.Rejected? {
      return;
    }
    var doc := content.value.doc;
    var elements: seq<Element>;
    match site.elements {
      case SelectorCascade(selectors) =>
        elements := DiscoverElements(doc, selectors);
      case ClassQuery(pattern) =>
        elements := doc.select(ClassMatches(pattern));
    }
    properties := KeepListings(site, elements);
  }

  /** The per-container loop: read each listing, keep those with a title or a price. */
  method KeepListings(site: Site, elements: seq<Element>) returns (properties: seq<Record>)
    ensures properties == KeywordRecords(site, elements)
  {
    properties := [];
    for i := 0 to |elements|
      invariant properties == KeywordRecords(site, elements[..i])
    {
      var listing := ReadListing(site, elements[i]);
      if Kept(listing) {
        properties := properties + [Record(site.source, listing, site.recordUrl)];
      }
      FilteredStep(KeptRecord(site), elements, i);
    }
    assert elements[..|elements|] == elements;
  }
}
