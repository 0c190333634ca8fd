/** The listing record every adapter produces. */
module Records {
  import opened Text
  import opened Patterns

  /** The ten listing fields, all strings, "" when unknown. */
  datatype Listing = Listing(
    title: string,
    propertyType: string,
    transactionType: string,
    location: string,
    price: string,
    areaSqm: string,
    bedrooms: string,
    bathrooms: string,
    datePosted: string,
    description: string)

  /** A listing as the aggregators keep it: tagged with the adapter's name and a URL. */
  datatype Record = Record(source: string, listing: Listing, url: string)

  /** The keep rule of the generic adapters: a listing needs a title or a price. */
  predicate Kept(l: Listing) {
    l.title != "" || l.price != ""
  }

  /**
   * The shapes the extractors give the numeric and date fields: a price of digits with
   * at most one `.`, digit-only area and room counts, a full timestamp, and never a
   * description.
   */
  predicate Normalised(l: Listing) {
    PriceShaped(l.price) && EmptyOrDigits(l.areaSqm) && EmptyOrDigits(l.bedrooms)
    && EmptyOrDigits(l.bathrooms) && (l.datePosted == "" || IsTimestamp(l.datePosted))
    && l.description == ""
  }
}
