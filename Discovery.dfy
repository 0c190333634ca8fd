/**
 * How the selector-driven adapters find listing containers on a page: the first CSS
 * selector that finds anything wins; when none does, every `div` whose lower-cased
 * text names a listing keyword and is longer than 50 characters is taken instead.
 */
module Discovery {
  import opened Options
  import opened Text
  import opened Documents

  const ListingSelectors: seq<string> := [
    "div[class*=\"property\"]", "div[class*=\"listing\"]", "div[class*=\"item\"]",
    "article[class*=\"property\"]", "article[class*=\"listing\"]",
    ".property-item", ".listing-item", ".property-card", ".listing-card"
  ]

  const ListingKeywords: seq<string> := ["mk", "price", "bed", "bath", "house", "plot", "land", "rent", "sale"]

  /** The text test of the fallback scan. */
  predicate LooksLikeListing(e: Element) {
    var low := Lower(e.text);
    ContainsAny(low, ListingKeywords) && |low| > 50
  }

  /** The fallback scan: the listing-like divs, in document order. */
  function KeepListingLike(divs: seq<Element>): (r: seq<Element>)
    ensures |r| <= |divs|
    ensures forall e :: e in r ==> e in divs && LooksLikeListing(e)
    ensures forall e :: e in divs && LooksLikeListing(e) ==> e in r
  {
    if divs == [] then []
    else
      var last := divs[|divs| - 1];
      KeepListingLike(divs[..|divs| - 1]) + (if LooksLikeListing(last) then [last] else [])
  }

  /** The first selector at or after `k` that finds anything. */
  function FirstFruitful(doc: Document, selectors: seq<string>, k: nat): (r: Option<nat>)
    requires k <= |selectors|
    ensures r.Some? ==> k <= r.value < |selectors| && doc.select(Select(selectors[r.value])) != []
    ensures r.Some? ==> forall j :: k <= j < r.value ==> doc.select(Select(selectors[j])) == []
    ensures r.None? ==> forall j :: k <= j < |selectors| ==> doc.select(Select(selectors[j])) == []
    decreases |selectors| - k
  {
    if k == |selectors| then None
    else if doc.select(Select(selectors[k])) != [] then Some(k)
    else FirstFruitful(doc, selectors, k + 1)
  }

  /** The containers the selector cascade settles on. */
  function Discover(doc: Document, selectors: seq<string>): (r: seq<Element>)
    ensures FirstFruitful(doc, selectors, 0).None? ==> forall e :: e in r ==> LooksLikeListing(e)
  {
    match FirstFruitful(doc, selectors, 0)
    case Some(k) => doc.select(Select(selectors[k]))
    case None => KeepListingLike(doc.select(AllDivs))
  }

  /**
   * The cascade stops at the first selector that finds anything, whatever the
   * selectors after it or the divs of the page would give.
   */
  lemma FirstFruitfulSelectorWins(doc: Document, selectors: seq<string>, k: nat)
    requires k < |selectors| && doc.select(Select(selectors[k])) != []
    requires forall j :: 0 <= j < k ==> doc.select(Select(selectors[j])) == []
    ensures Discover(doc, selectors) == doc.select(Select(selectors[k]))
  {
    var f := FirstFruitful(doc, selectors, 0);
    assert f.Some?;
  }

  /**
   * Nothing is found only when every selector comes back empty and no div on the
   * page looks like a listing.
   */
  lemma NothingDiscovered(doc: Document, selectors: seq<string>)
    ensures Discover(doc, selectors) == [] <==>
      (forall j :: 0 <= j < |selectors| ==> doc.select(Select(selectors[j])) == [])
      && (forall e :: e in doc.select(AllDivs) ==> !LooksLikeListing(e))
  {
    var f := FirstFruitful(doc, selectors, 0);
    if f.None? {
      var r := KeepListingLike(doc.select(AllDivs));
      if r != [] {
        assert r[0] in r;
      }
    }
  }

  /** The cascade and its fallback, as the adapters run them. */
  method DiscoverElements(doc: Document, selectors: seq<string>) returns (elements: seq<Element>)
    ensures elements == Discover(doc, selectors)
  {
    elements := [];
    for k := 0 to |selectors|
      invariant elements == []
      invariant forall j :: 0 <= j < k ==> doc.select(Select(selectors[j])) == []
    {
      var found := doc.select(Select(selectors[k]));
      if found != [] {
        elements := found;
        FirstFruitfulSelectorWins(doc, selectors, k);
        break;
      }
    }
    if elements == [] {
      var divs := doc.select(AllDivs);
      for i := 0 to |divs|
        invariant elements == KeepListingLike(divs[..i])
      {
        var text := Lower(divs[i].text);
        if ContainsAny(text, ListingKeywords) && |text| > 50 {
          elements := elements + [divs[i]];
        }
        assert divs[..i + 1][..i] == divs[..i];
      }
      assert divs[..|divs|] == divs;
    }
  }
}
